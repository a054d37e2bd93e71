/** What the generators promise: every pseudo-legal move starts on a piece
    of the side to move, never lands on a friendly piece, and can be pushed
    and popped exactly; and the per-piece shapes of the moves. */
module MoveFacts {
  import opened Common
  import opened Squares
  import opened Pieces
  import opened Positions
  import opened Movegen

  /** A well-formed position whose en-passant target, when there is one,
      is an empty square just behind a pawn of the side that is not to move
      (the square a double step has just passed over). */
  predicate Consistent(p: Position) {
    && WellFormed(p)
    && (p.enpassant != "-" ==>
          assert p.enpassant[..2] == p.enpassant;
          var e := SqToCoords(p.enpassant);
          && p.board[e] == '.'
          && (if p.activeColor == "w" then RankOf(e) == 2 && p.board[e + 8] == 'p'
              else RankOf(e) == 5 && p.board[e - 8] == 'P'))
  }

  /** The king and rook squares of the four castles and the squares that
      must be empty between them. */
  predicate CastleShape(p: Position, from: int, to: int)
    requires |p.board| == 64
  {
    || (from == 60 && to == 62 && p.board[61] == '.' && p.board[62] == '.')
    || (from == 60 && to == 58 && p.board[59] == '.' && p.board[58] == '.' && p.board[57] == '.')
    || (from == 4 && to == 6 && p.board[5] == '.' && p.board[6] == '.')
    || (from == 4 && to == 2 && p.board[3] == '.' && p.board[2] == '.' && p.board[1] == '.')
  }

  /** A pawn double step from its start rank over an empty square. */
  predicate DoubleStepShape(p: Position, m: Move)
    requires |p.board| == 64
  {
    var f := Forward(m.piece);
    && m.promotion.None?
    && m.toSq == m.fromSq + 2 * f
    && RankOf(m.fromSq) == StartRank(m.piece)
    && OnBoard(m.fromSq + f) && p.board[m.fromSq + f] == '.'
  }

  /** What the generators guarantee of each move they produce. */
  predicate Sound(p: Position, m: Move)
    requires WellFormed(p)
  {
    && OnBoard(m.fromSq) && OnBoard(m.toSq) && m.fromSq != m.toSq
    && m == MakeMove(p, m.fromSq, m.toSq, m.promotion)
    && ColorOf(m.piece) == Some(p.activeColor)
    && CanLand(m.piece, p.board[m.toSq])
    && (m.promotion.Some? ==> IsPiece(m.promotion.value))
    && (m.isCastle ==> CastleShape(p, m.fromSq, m.toSq))
    && (IsDoubleStep(m) ==> DoubleStepShape(p, m))
  }

  // ---------------------------------------------------------------------
  // Sound moves can be pushed and popped

  /** A sound move on a consistent position is well formed and can be
      undone exactly (see Positions.UndoApply). */
  lemma SoundRestorable(p: Position, m: Move)
    requires Consistent(p) && Sound(p, m)
    ensures WellFormedMove(m) && Restorable(p, m)
  {
    assert IsCell(p.board[m.fromSq]) && IsCell(p.board[m.toSq]);
    if m.isEnpassant {
      assert p.enpassant[..2] == p.enpassant;
      var e := SqToCoords(p.enpassant);
      assert m.toSq == e;
    }
  }

  /** Pushing a sound move keeps the position consistent: the en-passant
      target a double step sets is empty and has the mover's pawn in front
      of it. */
  lemma SoundApply(p: Position, m: Move)
    requires Consistent(p) && Sound(p, m)
    ensures Consistent(Apply(p, m))
  {
    SoundRestorable(p, m);
    ApplyWellFormed(p, m);
    var q := Apply(p, m);
    if IsDoubleStep(m) {
      PushFields(p, m);
      PushBoard(p, m);
      var e := (m.fromSq + m.toSq) / 2;
      assert q.enpassant[..2] == q.enpassant;
      assert SqToCoords(q.enpassant) == e;
      assert e == m.fromSq + Forward(m.piece);
      assert e !in Touched(m);
    }
  }

  // ---------------------------------------------------------------------
  // Each generator produces sound moves

  /** The piece on square i belongs to the side to move. */
  predicate Mover(p: Position, i: int)
    requires WellFormed(p)
  {
    OnBoard(i) && ColorOf(p.board[i]) == Some(p.activeColor)
  }

  lemma PromotionIsPiece(kind: char, pc: char)
    requires kind in PromotionKinds
    ensures IsPiece(PromotionPiece(kind, pc))
  {
  }

  lemma PromotionsSound(p: Position, i: int, to: int)
    requires Consistent(p) && Mover(p, i) && Upper(p.board[i]) == 'P'
    requires OnBoard(to) && to != i && CanLand(p.board[i], p.board[to]) && Abs(to - i) != 16
    ensures forall m <- Promotions(p, i, to) :: Sound(p, m)
  {
    var r := Promotions(p, i, to);
    forall k | 0 <= k < 4 ensures Sound(p, r[k]) {
      PromotionIsPiece(PromotionKinds[k], p.board[i]);
    }
  }

  lemma PawnPushesSound(p: Position, i: int)
    requires Consistent(p) && Mover(p, i) && Upper(p.board[i]) == 'P'
    ensures forall m <- PawnPushes(p, i) :: Sound(p, m)
  {
    var pc := p.board[i];
    var to := i + Forward(pc);
    if OnBoard(to) && p.board[to] == '.' {
      if RankOf(to) == PromoteRank(pc) {
        PromotionsSound(p, i, to);
      }
    }
  }

  lemma PawnCaptureSound(p: Position, i: int, df: int)
    requires Consistent(p) && Mover(p, i) && Upper(p.board[i]) == 'P' && (df == -1 || df == 1)
    ensures forall m <- PawnCapture(p, i, df) :: Sound(p, m)
  {
    var pc := p.board[i];
    var cap := i + Forward(pc) + df;
    if 0 <= FileOf(i) + df < 8 && OnBoard(cap) && IsEnemy(pc, p.board[cap]) {
      if RankOf(cap) == PromoteRank(pc) {
        PromotionsSound(p, i, cap);
      }
    }
  }

  lemma PawnEnpassantSound(p: Position, i: int, df: int)
    requires Consistent(p) && Mover(p, i) && Upper(p.board[i]) == 'P' && p.enpassant != "-"
    ensures forall m <- PawnEnpassant(p, i, df) :: Sound(p, m)
  {
    assert p.enpassant[..2] == p.enpassant;
    var e := SqToCoords(p.enpassant);
    if FileOf(i) + df == FileOf(e) && RankOf(e) == RankOf(i) + (if IsUpper(p.board[i]) then -1 else 1) {
      assert e - i == 8 * (RankOf(e) - RankOf(i)) + df;
    }
  }

  lemma PawnMovesSound(p: Position, i: int)
    requires Consistent(p) && Mover(p, i) && Upper(p.board[i]) == 'P'
    ensures forall m <- PawnMoves(p, i) :: Sound(p, m)
  {
    PawnPushesSound(p, i);
    var cf := df requires WellFormed(p) && OnBoard(i) => PawnCapture(p, i, df);
    forall m | m in PawnCaptures(p, i, Sides) ensures Sound(p, m) {
      GatherMember(Sides, cf, m);
      var k :| 0 <= k < 2 && m in cf(Sides[k]);
      PawnCaptureSound(p, i, Sides[k]);
    }
    if p.enpassant != "-" {
      var ef := df requires WellFormed(p) && OnBoard(i) && p.enpassant != "-" => PawnEnpassant(p, i, df);
      forall m | m in PawnEnpassants(p, i, Sides) ensures Sound(p, m) {
        GatherMember(Sides, ef, m);
        var k :| 0 <= k < 2 && m in ef(Sides[k]);
        PawnEnpassantSound(p, i, Sides[k]);
      }
    }
  }

  lemma LeapsSound(p: Position, i: int, offs: seq<int>, reach: int)
    requires Consistent(p) && Mover(p, i) && Upper(p.board[i]) != 'P'
    requires 0 !in offs && (reach <= 1 || Upper(p.board[i]) != 'K')
    ensures forall m <- Leaps(p, i, offs, reach) :: Sound(p, m) && FileDistance(i, m.toSq) <= reach
  {
    var f := off requires WellFormed(p) && OnBoard(i) => Leap(p, i, off, reach);
    forall m | m in Leaps(p, i, offs, reach) ensures Sound(p, m) && FileDistance(i, m.toSq) <= reach {
      GatherMember(offs, f, m);
    }
  }

  /** A ray of a bishop, rook or queen produces sound moves. */
  lemma {:induction false} RaySound(p: Position, i: int, d: int, to: int)
    requires Consistent(p) && Mover(p, i) && d != 0
    requires Upper(p.board[i]) != 'P' && Upper(p.board[i]) != 'K'
    requires if d > 0 then to > i else to < i
    ensures forall m <- Ray(p, i, d, to) :: Sound(p, m)
    decreases if d > 0 then 64 - to else to
  {
    if OnBoard(to) && FileDistance(to, to - d) <= 1 && p.board[to] == '.' {
      RaySound(p, i, d, to + d);
    }
  }

  lemma SlidesSound(p: Position, i: int, dirs: seq<int>)
    requires Consistent(p) && Mover(p, i) && 0 !in dirs
    requires Upper(p.board[i]) != 'P' && Upper(p.board[i]) != 'K'
    ensures forall m <- Slides(p, i, dirs) :: Sound(p, m)
  {
    var f := d requires WellFormed(p) && OnBoard(i) && d != 0 => Ray(p, i, d, i + d);
    forall m | m in Slides(p, i, dirs) ensures Sound(p, m) {
      GatherMember(dirs, f, m);
      var k :| 0 <= k < |dirs| && m in f(dirs[k]);
      RaySound(p, i, dirs[k], i + dirs[k]);
    }
  }

  lemma CastleSound(p: Position, i: int)
    requires Consistent(p) && Mover(p, i) && Upper(p.board[i]) == 'K'
    ensures forall m <- CastleMoves(p, i) :: Sound(p, m)
  {
    var r := CastleMoves(p, i);
    forall k | 0 <= k < |r| ensures Sound(p, r[k]) {
      var t := CastleTargets(p, i);
      assert r[k] == MakeMove(p, i, t[k], None);
      CastleTargetShape(p, i, k);
    }
  }

  /** A castling target offered to a king on its home square is g1/c1 or
      g8/c8 with the squares between king and rook empty. */
  lemma CastleTargetShape(p: Position, i: int, k: int)
    requires WellFormed(p) && Mover(p, i) && i == KingHome(p.board[i])
    requires 0 <= k < |CastleTargets(p, i)|
    ensures CastleShape(p, i, CastleTargets(p, i)[k])
  {
  }

  lemma PieceMovesSound(p: Position, i: int)
    requires Consistent(p) && Mover(p, i)
    ensures forall m <- PieceMoves(p, i) :: Sound(p, m)
  {
    var kind := Upper(p.board[i]);
    if kind == 'P' {
      PawnMovesSound(p, i);
    } else if kind == 'N' {
      LeapsSound(p, i, KnightOffsets, 2);
    } else if kind == 'B' {
      SlidesSound(p, i, BishopDirs);
    } else if kind == 'R' {
      SlidesSound(p, i, RookDirs);
    } else if kind == 'Q' {
      SlidesSound(p, i, QueenDirs);
    } else if kind == 'K' {
      LeapsSound(p, i, KingOffsets, 1);
      CastleSound(p, i);
    }
  }

  /** Every pseudo-legal move of a consistent position is sound: it starts
      on a piece of the side to move, does not land on a friendly piece,
      and push_move / pop_move handle it exactly. */
  lemma PseudoLegalSound(p: Position)
    requires Consistent(p)
    ensures forall m <- PseudoLegal(p) :: Sound(p, m)
  {
    var f := i requires WellFormed(p) && OnBoard(i) => SquareMoves(p, i);
    forall m | m in PseudoLegal(p) ensures Sound(p, m) {
      GatherMember(AllSquares(), f, m);
      var k :| 0 <= k < 64 && m in f(AllSquares()[k]);
      SquareMovesSound(p, k);
    }
  }

  lemma SquareMovesSound(p: Position, i: int)
    requires Consistent(p) && OnBoard(i)
    ensures forall m <- SquareMoves(p, i) :: Sound(p, m)
  {
    if IsMine(p.activeColor, p.board[i]) {
      assert IsCell(p.board[i]);
      PieceMovesSound(p, i);
    }
  }

  // ---------------------------------------------------------------------
  // Captures shrink the board

  /** The number of occupied cells. */
  function Occupied(b: seq<char>): nat {
    if b == [] then 0 else Occupied(b[..|b| - 1]) + (if b[|b| - 1] != '.' then 1 else 0)
  }

  function CellCount(c: char): nat {
    if c != '.' then 1 else 0
  }

  /** Writing one cell changes the count by what leaves and what enters. */
  lemma {:induction false} OccupiedUpdate(b: seq<char>, i: int, c: char)
    requires 0 <= i < |b|
    ensures Occupied(b[i := c]) + CellCount(b[i]) == Occupied(b) + CellCount(c)
  {
    var n := |b| - 1;
    if i < n {
      assert b[i := c][..n] == b[..n][i := c];
      OccupiedUpdate(b[..n], i, c);
    } else {
      assert b[i := c][..n] == b[..n];
    }
  }

  /** Moving a piece onto an occupied square and emptying its origin
      removes one piece. */
  lemma PlainCaptureCount(b: seq<char>, m: Move)
    requires |b| == 64 && InRange(m) && m.fromSq != m.toSq && !m.isEnpassant && !m.isCastle
    requires b[m.fromSq] != '.' && b[m.toSq] != '.' && m.promotion.GetOr(m.piece) != '.'
    ensures Occupied(ApplyBoard(b, m)) < Occupied(b)
  {
    var b1 := b[m.toSq := m.promotion.GetOr(m.piece)];
    OccupiedUpdate(b, m.toSq, m.promotion.GetOr(m.piece));
    OccupiedUpdate(b1, m.fromSq, '.');
  }

  /** Moving a pawn onto the empty target and removing the pawn behind it
      removes one piece. */
  lemma EnpassantCount(b: seq<char>, m: Move)
    requires |b| == 64 && InRange(m) && m.fromSq != m.toSq && m.isEnpassant && !m.isCastle
    requires EpCaptureSquare(m) != m.fromSq && EpCaptureSquare(m) != m.toSq
    requires b[m.fromSq] != '.' && b[m.toSq] == '.' && b[EpCaptureSquare(m)] != '.'
    ensures Occupied(ApplyBoard(b, m)) < Occupied(b)
  {
    var b1 := b[m.toSq := m.promotion.GetOr(m.piece)];
    var b2 := b1[m.fromSq := '.'];
    OccupiedUpdate(b, m.toSq, m.promotion.GetOr(m.piece));
    OccupiedUpdate(b1, m.fromSq, '.');
    OccupiedUpdate(b2, EpCaptureSquare(m), '.');
  }

  /** A sound capture leaves one piece fewer on the board: an ordinary
      capture replaces the victim and empties the origin, an en-passant
      capture fills the empty target and empties both the origin and the
      victim's square. */
  lemma CaptureShrinks(p: Position, m: Move)
    requires Consistent(p) && Sound(p, m) && m.captured != '.'
    ensures Occupied(ApplyBoard(p.board, m)) < Occupied(p.board)
  {
    SoundRestorable(p, m);
    if m.isEnpassant {
      FileOfVertical(m.toSq);
      EnpassantCount(p.board, m);
    } else {
      PlainCaptureCount(p.board, m);
    }
  }
}
