/** The shapes of the moves each generator produces: promotions, double
    steps, diagonal captures, leaper reach, rays that stop at the first
    piece, castling conditions; and the castling defect of the generator
    as written. */
module MoveShapes {
  import opened Common
  import opened Squares
  import opened Pieces
  import opened Positions
  import opened Movegen
  import opened MoveFacts

  // ---------------------------------------------------------------------
  // Pawns

  /** The pawn generator's parts: forward moves, the captures to the left
      and right, and the en-passant captures to the left and right. */
  lemma PawnMovesParts(p: Position, i: int)
    requires WellFormed(p) && OnBoard(i)
    ensures PawnCaptures(p, i, Sides) == PawnCapture(p, i, -1) + PawnCapture(p, i, 1)
    ensures p.enpassant != "-" ==>
      PawnEnpassants(p, i, Sides) == PawnEnpassant(p, i, -1) + PawnEnpassant(p, i, 1)
  {
    GatherPair(Sides, df requires WellFormed(p) && OnBoard(i) => PawnCapture(p, i, df));
    if p.enpassant != "-" {
      GatherPair(Sides, df requires WellFormed(p) && OnBoard(i) && p.enpassant != "-" => PawnEnpassant(p, i, df));
    }
  }

  /** Where a pawn move comes from: the forward moves, or the capture or
      en-passant capture on side df. */
  lemma PawnSource(p: Position, i: int, m: Move) returns (df: int)
    requires WellFormed(p) && OnBoard(i) && m in PawnMoves(p, i)
    ensures df == -1 || df == 1
    ensures || m in PawnPushes(p, i)
            || m in PawnCapture(p, i, df)
            || (p.enpassant != "-" && m in PawnEnpassant(p, i, df))
  {
    PawnMovesParts(p, i);
    df := if m in PawnCapture(p, i, 1) || (p.enpassant != "-" && m in PawnEnpassant(p, i, 1)) then 1 else -1;
  }

  /** A single step onto the last rank yields exactly four moves to that
      square, promoting to queen, rook, bishop and knight, in the mover's
      case. */
  lemma PushOntoLastRank(p: Position, i: int)
    requires WellFormed(p) && OnBoard(i) && Upper(p.board[i]) == 'P'
    requires var to := i + Forward(p.board[i]);
      OnBoard(to) && p.board[to] == '.' && RankOf(to) == PromoteRank(p.board[i])
    ensures var r := PawnPushes(p, i);
      && |r| == 4
      && forall k :: 0 <= k < 4 ==>
           && r[k].toSq == i + Forward(p.board[i])
           && r[k].promotion.Some?
           && Upper(r[k].promotion.value) == PromotionKinds[k]
           && (IsUpper(r[k].promotion.value) <==> IsUpper(p.board[i]))
  {
  }

  /** A pawn move carries a promotion exactly when it lands on the last
      rank. */
  lemma PromotesOnLastRank(p: Position, i: int, m: Move)
    requires Consistent(p) && Mover(p, i) && Upper(p.board[i]) == 'P'
    requires m in PawnMoves(p, i)
    ensures m.promotion.Some? <==> RankOf(m.toSq) == PromoteRank(p.board[i])
  {
    var df := PawnSource(p, i, m);
    if p.enpassant != "-" && m in PawnEnpassant(p, i, df) && m !in PawnPushes(p, i) {
      assert p.enpassant[..2] == p.enpassant;
    }
  }

  /** A two-square pawn move is only made from the start rank, with both
      the square passed over and the target empty. */
  lemma DoublePushShape(p: Position, i: int, m: Move)
    requires Consistent(p) && Mover(p, i) && Upper(p.board[i]) == 'P'
    requires m in PawnMoves(p, i) && Abs(m.toSq - i) == 16
    ensures RankOf(i) == StartRank(p.board[i]) && OnBoard(m.toSq)
    ensures p.board[i + Forward(p.board[i])] == '.' && p.board[m.toSq] == '.'
  {
    PawnMovesSound(p, i);
    var df := PawnSource(p, i, m);
  }

  /** Forward moves stay on the pawn's file. */
  lemma PushesStayOnFile(p: Position, i: int)
    requires WellFormed(p) && OnBoard(i)
    ensures forall m <- PawnPushes(p, i) :: FileOf(m.toSq) == FileOf(i)
  {
  }

  /** A capture lands on an enemy piece one file to the side. */
  lemma CaptureOntoEnemy(p: Position, i: int, df: int)
    requires WellFormed(p) && OnBoard(i)
    ensures forall m <- PawnCapture(p, i, df) :: OnBoard(m.toSq) && IsEnemy(p.board[i], p.board[m.toSq])
  {
  }

  /** An en-passant capture lands on the empty target square and is
      flagged as en passant by make_move_struct. */
  lemma EnpassantOntoTarget(p: Position, i: int, df: int)
    requires Consistent(p) && OnBoard(i) && Upper(p.board[i]) == 'P' && (df == -1 || df == 1)
    requires p.enpassant != "-"
    ensures forall m <- PawnEnpassant(p, i, df) :: OnBoard(m.toSq) && m.isEnpassant && p.board[m.toSq] == '.'
  {
    assert p.enpassant[..2] == p.enpassant;
  }

  /** A pawn move that changes file lands on an enemy piece, or is an
      en-passant capture onto the empty target square. */
  lemma DiagonalIsCapture(p: Position, i: int, m: Move)
    requires Consistent(p) && Mover(p, i) && Upper(p.board[i]) == 'P'
    requires m in PawnMoves(p, i) && FileOf(m.toSq) != FileOf(i)
    ensures OnBoard(m.toSq)
    ensures IsEnemy(p.board[i], p.board[m.toSq]) || (m.isEnpassant && p.board[m.toSq] == '.')
  {
    PawnMovesParts(p, i);
    PushesStayOnFile(p, i);
    CaptureOntoEnemy(p, i, -1);
    CaptureOntoEnemy(p, i, 1);
    if p.enpassant != "-" {
      EnpassantOntoTarget(p, i, -1);
      EnpassantOntoTarget(p, i, 1);
    }
  }

  // ---------------------------------------------------------------------
  // Knights and kings

  /** A leaper move goes by one of the offsets, stays within `reach` files
      and does not land on a piece of the mover's colour. */
  lemma LeapShape(p: Position, i: int, offs: seq<int>, reach: int, m: Move)
    requires WellFormed(p) && OnBoard(i) && m in Leaps(p, i, offs, reach)
    ensures OnBoard(m.toSq) && m.toSq - i in offs && m == MakeMove(p, i, m.toSq, None)
    ensures FileDistance(i, m.toSq) <= reach && CanLand(p.board[i], p.board[m.toSq])
  {
    var f := off requires WellFormed(p) && OnBoard(i) => Leap(p, i, off, reach);
    GatherMember(offs, f, m);
  }

  // ---------------------------------------------------------------------
  // Sliding pieces

  /** A ray visits the squares to, to + d, to + 2d, ... in order; every
      square before the last is empty, and the last is empty or holds an
      enemy: the ray stops at the first occupied square and includes it
      only when it holds an enemy. */
  lemma {:induction false} RayShape(p: Position, i: int, d: int, to: int)
    requires WellFormed(p) && OnBoard(i) && d != 0
    ensures var r := Ray(p, i, d, to);
      forall k :: 0 <= k < |r| ==>
        && OnBoard(to + k * d)
        && r[k] == MakeMove(p, i, to + k * d, None)
        && CanLand(p.board[i], p.board[to + k * d])
        && (k < |r| - 1 ==> p.board[to + k * d] == '.')
    decreases if d > 0 then 64 - to else to
  {
    var r := Ray(p, i, d, to);
    if OnBoard(to) && FileDistance(to, to - d) <= 1 && p.board[to] == '.' {
      RayShape(p, i, d, to + d);
      var s := Ray(p, i, d, to + d);
      assert r == [MakeMove(p, i, to, None)] + s;
      forall k | 1 <= k < |r|
        ensures OnBoard(to + k * d) && r[k] == MakeMove(p, i, to + k * d, None)
      {
        assert r[k] == s[k - 1];
        assert (to + d) + (k - 1) * d == to + k * d;
      }
    }
  }

  // ---------------------------------------------------------------------
  // Castling

  /** Castling is offered only to a king of the side to move standing on
      its home square, towards a side whose right letter is present, with
      the squares between king and rook empty. */
  lemma CastleConditions(p: Position, i: int, m: Move)
    requires WellFormed(p) && OnBoard(i) && m in CastleMoves(p, i)
    ensures i == KingHome(p.board[i]) && m.fromSq == i
    ensures IsUpper(p.board[i]) ==> p.activeColor == "w"
    ensures IsLower(p.board[i]) ==> p.activeColor == "b"
    ensures CastleShape(p, i, m.toSq)
    ensures m.toSq == i + 2 ==> (if IsUpper(p.board[i]) then 'K' else 'k') in p.castling
    ensures m.toSq == i - 2 ==> (if IsUpper(p.board[i]) then 'Q' else 'q') in p.castling
  {
    var t := CastleTargets(p, i);
    var k :| 0 <= k < |t| && m == MakeMove(p, i, t[k], None);
  }

  /** The generator as written offers castling from any square of the
      king: a white king on h1 with the K right and f1, g1 empty is sent
      to square 65, off the board (make_move_struct then indexes past the
      end of the board list), and a white king on a1 with the Q right and
      b1, c1, d1 empty is sent to g2, which is no castle at all. */
  lemma CastleFromAnySquare()
    ensures var p := Position(seq(64, k => if k == 63 then 'K' else '.'), "w", "K", "-", 0, 1);
      WellFormed(p) && CastleTargets(p, 63) == [65] && !OnBoard(65)
    ensures var p := Position(seq(64, k => if k == 56 then 'K' else '.'), "w", "Q", "-", 0, 1);
      WellFormed(p) && CastleTargets(p, 56) == [54] && FileDistance(56, 54) == 6
  {
    var p := Position(seq(64, k => if k == 63 then 'K' else '.'), "w", "K", "-", 0, 1);
    assert p.board[61] == '.' && p.board[62] == '.' && p.board[63] == 'K';
    var q := Position(seq(64, k => if k == 56 then 'K' else '.'), "w", "Q", "-", 0, 1);
    assert q.board[59] == '.' && q.board[58] == '.' && q.board[57] == '.' && q.board[56] == 'K';
  }

  /** The castle the generator as written offers away from the home
      square does not survive push_move then pop_move: with the white king
      on d1, the rook squares of d1-f1 are d1 itself and g1, so undoing
      the move leaves d1 empty and the king is gone from the board. */
  lemma {:induction false} CastleOffHomeErasesKing()
    ensures var p := Position(seq(64, k => if k == 59 then 'K' else if k == 4 then 'k' else '.'), "w", "K", "-", 0, 1);
      && WellFormed(p) && CastleTargets(p, 59) == [61]
      && var m := MakeMove(p, 59, 61, None);
      && m.isCastle && InRange(m) && !Restorable(p, m)
      && Undo(Apply(p, m), m).board == p.board[59 := '.']
      && Undo(Apply(p, m), m).board != p.board
  {
    var p := Position(seq(64, k => if k == 59 then 'K' else if k == 4 then 'k' else '.'), "w", "K", "-", 0, 1);
    assert p.board[59] == 'K' && p.board[61] == '.' && p.board[62] == '.';
    assert CastleTargets(p, 59) == [61];
    var m := MakeMove(p, 59, 61, None);
    assert m.isCastle && RookFrom(m) == 59 && RookTo(m) == 62;
    var b := Undo(Apply(p, m), m).board;
    forall k | 0 <= k < 64 ensures b[k] == p.board[59 := '.'][k] {
    }
    assert b == p.board[59 := '.'];
    assert b[59] != p.board[59];
  }

  /** On the home square the corrected generator offers exactly the moves
      the generator as written offers. */
  lemma CastleAtHomeAgrees(p: Position, i: int)
    requires WellFormed(p) && OnBoard(i) && i == KingHome(p.board[i])
    ensures |CastleMoves(p, i)| == |CastleTargets(p, i)|
    ensures forall k :: 0 <= k < |CastleMoves(p, i)| ==> CastleMoves(p, i)[k].toSq == CastleTargets(p, i)[k]
  {
  }
}
