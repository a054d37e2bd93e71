/** Pseudo-legal move generation (generate_pseudo_legal_moves and the
    generate_* helpers) stated as functions of a position: the moves each
    generator appends, in the order it appends them. */
module Movegen {
  import opened Common
  import opened Squares
  import opened Pieces
  import opened Positions

  const KnightOffsets: seq<int> := [-17, -15, -10, -6, 6, 10, 15, 17]
  const KingOffsets: seq<int> := [-9, -8, -7, -1, 1, 7, 8, 9]
  const BishopDirs: seq<int> := [-9, -7, 7, 9]
  const RookDirs: seq<int> := [-8, -1, 1, 8]
  const QueenDirs: seq<int> := BishopDirs + RookDirs
  /** The two sideways steps of a pawn capture, left then right. */
  const Sides: seq<int> := [-1, 1]
  /** Promotion pieces in the order the generator offers them. */
  const PromotionKinds: string := "QRBN"

  /** The moves f gives for each element of xs, concatenated in order: the
      shape of every `for ... in ...: moves.append(...)` loop. */
  function Gather(xs: seq<int>, f: int --> seq<Move>): seq<Move>
    requires forall k :: 0 <= k < |xs| ==> f.requires(xs[k])
  {
    if xs == [] then [] else Gather(xs[..|xs| - 1], f) + f(xs[|xs| - 1])
  }

  /** One more loop round appends f of the next element. */
  lemma GatherSnoc(xs: seq<int>, f: int --> seq<Move>, k: nat)
    requires k < |xs| && forall j :: 0 <= j < |xs| ==> f.requires(xs[j])
    ensures Gather(xs[..k + 1], f) == Gather(xs[..k], f) + f(xs[k])
  {
    assert xs[..k + 1][..k] == xs[..k];
  }

  /** Every gathered move comes from some element. */
  lemma {:induction false} GatherMember(xs: seq<int>, f: int --> seq<Move>, m: Move)
    requires forall k :: 0 <= k < |xs| ==> f.requires(xs[k])
    requires m in Gather(xs, f)
    ensures exists k :: 0 <= k < |xs| && m in f(xs[k])
  {
    var n := |xs| - 1;
    if m in f(xs[n]) {
    } else {
      assert forall k :: 0 <= k < n ==> xs[..n][k] == xs[k];
      GatherMember(xs[..n], f, m);
    }
  }

  /** A move of f for some element is gathered. */
  lemma {:induction false} GatherHas(xs: seq<int>, f: int --> seq<Move>, k: int, m: Move)
    requires forall j :: 0 <= j < |xs| ==> f.requires(xs[j])
    requires 0 <= k < |xs| && m in f(xs[k])
    ensures m in Gather(xs, f)
  {
    var n := |xs| - 1;
    if k < n {
      assert forall j :: 0 <= j < n ==> xs[..n][j] == xs[j];
      GatherHas(xs[..n], f, k, m);
    }
  }

  /** A loop over two elements appends f of the first, then of the second. */
  lemma GatherPair(xs: seq<int>, f: int --> seq<Move>)
    requires |xs| == 2 && f.requires(xs[0]) && f.requires(xs[1])
    ensures Gather(xs, f) == f(xs[0]) + f(xs[1])
  {
    var ys := xs[..1];
    assert ys[..0] == [] && ys[0] == xs[0];
    assert Gather(ys, f) == f(xs[0]);
    assert xs[..|xs| - 1] == ys;
  }

  /** Offsets listed so that the k-th from the end is minus the k-th: every
      step has its reverse in the list. */
  predicate Symmetric(offs: seq<int>) {
    forall k :: 0 <= k < |offs| ==> offs[|offs| - 1 - k] == -offs[k]
  }

  lemma OffsetsSymmetric()
    ensures Symmetric(KnightOffsets) && Symmetric(KingOffsets)
    ensures Symmetric(BishopDirs) && Symmetric(RookDirs)
  {
  }

  // ---------------------------------------------------------------------
  // Colours and pawn geometry

  /** A square the mover may land on: empty, or holding a piece whose
      colour differs from the mover's. */
  predicate CanLand(piece: char, target: char) {
    target == '.' || ColorOf(target) != ColorOf(piece)
  }

  /** A square a pawn may capture on: occupied by the other colour. */
  predicate IsEnemy(piece: char, target: char) {
    target != '.' && ColorOf(target) != ColorOf(piece)
  }

  /** The index step of a pawn move: up the board (-8) for white. */
  function Forward(piece: char): int {
    if IsUpper(piece) then -8 else 8
  }

  function StartRank(piece: char): int {
    if IsUpper(piece) then 6 else 1
  }

  function PromoteRank(piece: char): int {
    if IsUpper(piece) then 0 else 7
  }

  /** A promotion letter in the mover's case. */
  function PromotionPiece(kind: char, piece: char): char {
    if IsUpper(piece) then kind else Lower(kind)
  }

  // ---------------------------------------------------------------------
  // Pawns (generate_pawn_moves)

  /** The four promotions of a pawn step or capture, Q, R, B, N in the
      mover's case. */
  function Promotions(p: Position, from: int, to: int): (r: seq<Move>)
    requires WellFormed(p) && OnBoard(from) && OnBoard(to)
    ensures |r| == 4
    ensures forall k :: 0 <= k < 4 ==>
      r[k] == MakeMove(p, from, to, Some(PromotionPiece(PromotionKinds[k], p.board[from])))
  {
    seq(4, k requires 0 <= k < 4 => MakeMove(p, from, to, Some(PromotionPiece(PromotionKinds[k], p.board[from]))))
  }

  /** The forward moves: one step onto an empty square (four promotions on
      the last rank), and from the start rank two steps when that square is
      empty too. */
  function PawnPushes(p: Position, i: int): seq<Move>
    requires WellFormed(p) && OnBoard(i)
  {
    var pc := p.board[i];
    var to := i + Forward(pc);
    if !OnBoard(to) || p.board[to] != '.' then []
    else if RankOf(to) == PromoteRank(pc) then Promotions(p, i, to)
    else if RankOf(i) == StartRank(pc) && p.board[i + 2 * Forward(pc)] == '.' then
      [MakeMove(p, i, to, None), MakeMove(p, i, i + 2 * Forward(pc), None)]
    else [MakeMove(p, i, to, None)]
  }

  /** The diagonal capture on the side df, onto an enemy piece only. */
  function PawnCapture(p: Position, i: int, df: int): seq<Move>
    requires WellFormed(p) && OnBoard(i)
  {
    var pc := p.board[i];
    var cap := i + Forward(pc) + df;
    if !(0 <= FileOf(i) + df < 8) || !OnBoard(cap) || !IsEnemy(pc, p.board[cap]) then []
    else if RankOf(cap) == PromoteRank(pc) then Promotions(p, i, cap)
    else [MakeMove(p, i, cap, None)]
  }

  /** The en-passant capture on the side df: onto the target square when it
      is one file over and one rank ahead. */
  function PawnEnpassant(p: Position, i: int, df: int): seq<Move>
    requires WellFormed(p) && OnBoard(i) && p.enpassant != "-"
  {
    var e := SqToCoords(p.enpassant);
    assert p.enpassant[..2] == p.enpassant;
    if FileOf(i) + df == FileOf(e) && RankOf(e) == RankOf(i) + (if IsUpper(p.board[i]) then -1 else 1)
    then [MakeMove(p, i, e, None)]
    else []
  }

  function PawnCaptures(p: Position, i: int, dfs: seq<int>): seq<Move>
    requires WellFormed(p) && OnBoard(i)
  {
    Gather(dfs, df requires WellFormed(p) && OnBoard(i) => PawnCapture(p, i, df))
  }

  function PawnEnpassants(p: Position, i: int, dfs: seq<int>): seq<Move>
    requires WellFormed(p) && OnBoard(i) && p.enpassant != "-"
  {
    Gather(dfs, df requires WellFormed(p) && OnBoard(i) && p.enpassant != "-" => PawnEnpassant(p, i, df))
  }

  /** The pawn's forward moves, its captures to either side, and, when
      there is an en-passant target, its en-passant captures. */
  function PawnMoves(p: Position, i: int): seq<Move>
    requires WellFormed(p) && OnBoard(i)
  {
    PawnPushes(p, i) + PawnCaptures(p, i, Sides)
    + (if p.enpassant == "-" then [] else PawnEnpassants(p, i, Sides))
  }

  // ---------------------------------------------------------------------
  // Knights and kings (generate_knight_moves, generate_king_moves)

  /** One offset of a leaper: on the board, at most `reach` files away, and
      not onto a piece of the mover's colour. */
  function Leap(p: Position, i: int, off: int, reach: int): seq<Move>
    requires WellFormed(p) && OnBoard(i)
  {
    var to := i + off;
    if OnBoard(to) && FileDistance(i, to) <= reach && CanLand(p.board[i], p.board[to])
    then [MakeMove(p, i, to, None)]
    else []
  }

  function Leaps(p: Position, i: int, offs: seq<int>, reach: int): seq<Move>
    requires WellFormed(p) && OnBoard(i)
  {
    Gather(offs, off requires WellFormed(p) && OnBoard(i) => Leap(p, i, off, reach))
  }

  // ---------------------------------------------------------------------
  // Sliding pieces (generate_sliding_moves)

  /** The ray from i in direction d, from square `to` on: empty squares are
      added and passed, the first occupied one is added when it holds an
      enemy, and a step that wraps round a board edge ends the ray. */
  function Ray(p: Position, i: int, d: int, to: int): seq<Move>
    requires WellFormed(p) && OnBoard(i) && d != 0
    decreases if d > 0 then 64 - to else to
  {
    if !OnBoard(to) || FileDistance(to, to - d) > 1 then []
    else if p.board[to] == '.' then [MakeMove(p, i, to, None)] + Ray(p, i, d, to + d)
    else if ColorOf(p.board[to]) != ColorOf(p.board[i]) then [MakeMove(p, i, to, None)]
    else []
  }

  function Slides(p: Position, i: int, dirs: seq<int>): seq<Move>
    requires WellFormed(p) && OnBoard(i) && 0 !in dirs
  {
    Gather(dirs, d requires WellFormed(p) && OnBoard(i) && d != 0 => Ray(p, i, d, i + d))
  }

  // ---------------------------------------------------------------------
  // Castling

  /** The squares generate_king_moves asks make_move_struct for when it
      offers castling, as written: two files right or left of the king
      WHEREVER the king stands, whenever the right letter is present and
      the squares between e-file king and rook are empty. */
  function CastleTargets(p: Position, i: int): (r: seq<int>)
    requires WellFormed(p) && OnBoard(i)
    ensures forall k :: 0 <= k < |r| ==> r[k] == i + 2 || r[k] == i - 2
  {
    var b := p.board;
    var pc := b[i];
    if IsUpper(pc) && p.activeColor == "w" then
      (if 'K' in p.castling && b[61] == '.' && b[62] == '.' then [i + 2] else [])
      + (if 'Q' in p.castling && b[59] == '.' && b[58] == '.' && b[57] == '.' then [i - 2] else [])
    else if IsLower(pc) && p.activeColor == "b" then
      (if 'k' in p.castling && b[5] == '.' && b[6] == '.' then [i + 2] else [])
      + (if 'q' in p.castling && b[3] == '.' && b[2] == '.' && b[1] == '.' then [i - 2] else [])
    else []
  }

  /** The king's starting square: e1 for white, e8 for black. */
  function KingHome(piece: char): int {
    if IsUpper(piece) then 60 else 4
  }

  /** The plain moves from `from` to each target, in order. */
  function MovesTo(p: Position, from: int, targets: seq<int>): (r: seq<Move>)
    requires WellFormed(p) && OnBoard(from) && forall k :: 0 <= k < |targets| ==> OnBoard(targets[k])
    ensures |r| == |targets| && forall k :: 0 <= k < |r| ==> r[k] == MakeMove(p, from, targets[k], None)
  {
    if targets == [] then []
    else MovesTo(p, from, targets[..|targets| - 1]) + [MakeMove(p, from, targets[|targets| - 1], None)]
  }

  /** Castling as intended: only offered to a king on its starting square,
      where the targets are g1/c1 or g8/c8. */
  function CastleMoves(p: Position, i: int): seq<Move>
    requires WellFormed(p) && OnBoard(i)
  {
    if i != KingHome(p.board[i]) then [] else MovesTo(p, i, CastleTargets(p, i))
  }

  // ---------------------------------------------------------------------
  // The whole generator

  /** The moves of the piece on square i, by kind. */
  function PieceMoves(p: Position, i: int): seq<Move>
    requires WellFormed(p) && OnBoard(i)
  {
    var kind := Upper(p.board[i]);
    if kind == 'P' then PawnMoves(p, i)
    else if kind == 'N' then Leaps(p, i, KnightOffsets, 2)
    else if kind == 'B' then Slides(p, i, BishopDirs)
    else if kind == 'R' then Slides(p, i, RookDirs)
    else if kind == 'Q' then Slides(p, i, QueenDirs)
    else if kind == 'K' then Leaps(p, i, KingOffsets, 1) + CastleMoves(p, i)
    else []
  }

  /** A piece of the side to move: not empty, and not lower case when white
      moves nor upper case when black moves. */
  predicate IsMine(color: string, c: char) {
    c != '.' && !(color == "w" && IsLower(c)) && !(color == "b" && IsUpper(c))
  }

  function SquareMoves(p: Position, i: int): seq<Move>
    requires WellFormed(p) && OnBoard(i)
  {
    if IsMine(p.activeColor, p.board[i]) then PieceMoves(p, i) else []
  }

  /** Square indices 0..63 in board order. */
  function AllSquares(): (r: seq<int>)
    ensures |r| == 64 && forall k :: 0 <= k < 64 ==> r[k] == k
  {
    seq(64, k => k)
  }

  function SquaresMoves(p: Position, squares: seq<int>): seq<Move>
    requires WellFormed(p) && forall k :: 0 <= k < |squares| ==> OnBoard(squares[k])
  {
    Gather(squares, i requires WellFormed(p) && OnBoard(i) => SquareMoves(p, i))
  }

  /** generate_pseudo_legal_moves: the moves of every piece of the side to
      move, square by square from a8. */
  function PseudoLegal(p: Position): seq<Move>
    requires WellFormed(p)
  {
    SquaresMoves(p, AllSquares())
  }

  // ---------------------------------------------------------------------
  // One more round of each generator loop

  lemma PawnCapturesSnoc(p: Position, i: int, dfs: seq<int>, k: nat)
    requires WellFormed(p) && OnBoard(i) && k < |dfs|
    ensures PawnCaptures(p, i, dfs[..k + 1]) == PawnCaptures(p, i, dfs[..k]) + PawnCapture(p, i, dfs[k])
  {
    GatherSnoc(dfs, df requires WellFormed(p) && OnBoard(i) => PawnCapture(p, i, df), k);
  }

  lemma PawnEnpassantsSnoc(p: Position, i: int, dfs: seq<int>, k: nat)
    requires WellFormed(p) && OnBoard(i) && p.enpassant != "-" && k < |dfs|
    ensures PawnEnpassants(p, i, dfs[..k + 1]) == PawnEnpassants(p, i, dfs[..k]) + PawnEnpassant(p, i, dfs[k])
  {
    GatherSnoc(dfs, df requires WellFormed(p) && OnBoard(i) && p.enpassant != "-" => PawnEnpassant(p, i, df), k);
  }

  lemma LeapsSnoc(p: Position, i: int, offs: seq<int>, reach: int, k: nat)
    requires WellFormed(p) && OnBoard(i) && k < |offs|
    ensures Leaps(p, i, offs[..k + 1], reach) == Leaps(p, i, offs[..k], reach) + Leap(p, i, offs[k], reach)
  {
    GatherSnoc(offs, off requires WellFormed(p) && OnBoard(i) => Leap(p, i, off, reach), k);
  }

  lemma SlidesSnoc(p: Position, i: int, dirs: seq<int>, k: nat)
    requires WellFormed(p) && OnBoard(i) && 0 !in dirs && k < |dirs|
    ensures 0 !in dirs[..k] && 0 !in dirs[..k + 1]
    ensures Slides(p, i, dirs[..k + 1]) == Slides(p, i, dirs[..k]) + Ray(p, i, dirs[k], i + dirs[k])
  {
    assert forall j :: 0 <= j <= k ==> dirs[..k + 1][j] == dirs[j];
    GatherSnoc(dirs, d requires WellFormed(p) && OnBoard(i) && d != 0 => Ray(p, i, d, i + d), k);
  }

  lemma SquaresMovesSnoc(p: Position, squares: seq<int>, k: nat)
    requires WellFormed(p) && forall j :: 0 <= j < |squares| ==> OnBoard(squares[j])
    requires k < |squares|
    ensures SquaresMoves(p, squares[..k + 1]) == SquaresMoves(p, squares[..k]) + SquareMoves(p, squares[k])
  {
    GatherSnoc(squares, i requires WellFormed(p) && OnBoard(i) => SquareMoves(p, i), k);
  }
}
