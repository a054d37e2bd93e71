/** What the attack test means: a square holding a piece of the side not
    to move is attacked by the side to move exactly when one of that
    side's pseudo-legal moves lands on it. This is the property
    filter_legal_moves relies on when it asks whether the king of the side
    that just moved can be taken. */
module CheckFacts {
  import opened Common
  import opened Squares
  import opened Pieces
  import opened Positions
  import opened Movegen
  import opened MoveFacts
  import opened MoveShapes
  import opened Attacks

  /** The square holds a piece of the side not to move. */
  predicate Target(p: Position, sq: int)
    requires WellFormed(p)
  {
    OnBoard(sq) && ColorOf(p.board[sq]) == Some(Opponent(p.activeColor))
  }

  /** A piece of the side to move is one the generator moves. */
  lemma MineIffColour(p: Position, src: int)
    requires WellFormed(p) && OnBoard(src)
    ensures IsMine(p.activeColor, p.board[src]) <==> ColorOf(p.board[src]) == Some(p.activeColor)
  {
    assert IsCell(p.board[src]);
  }

  /** A move of a piece of the side to move is in the pseudo-legal list. */
  lemma InPseudoLegal(p: Position, src: int, m: Move)
    requires WellFormed(p) && OnBoard(src) && ColorOf(p.board[src]) == Some(p.activeColor)
    requires m in PieceMoves(p, src)
    ensures m in PseudoLegal(p)
  {
    MineIffColour(p, src);
    GatherHas(AllSquares(), i requires WellFormed(p) && OnBoard(i) => SquareMoves(p, i), src, m);
  }

  /** Every pseudo-legal move belongs to a piece of the side to move. */
  lemma PseudoLegalSource(p: Position, m: Move) returns (src: int)
    requires WellFormed(p) && m in PseudoLegal(p)
    ensures OnBoard(src) && ColorOf(p.board[src]) == Some(p.activeColor) && m in PieceMoves(p, src)
  {
    var f := i requires WellFormed(p) && OnBoard(i) => SquareMoves(p, i);
    GatherMember(AllSquares(), f, m);
    src :| 0 <= src < 64 && m in f(AllSquares()[src]);
    MineIffColour(p, src);
  }

  // ---------------------------------------------------------------------
  // Pawns

  /** The square a pawn on `src` captures on the side df, and when that
      capture stays on the board. */
  lemma PawnCaptureGeometry(p: Position, src: int, df: int, m: Move)
    requires WellFormed(p) && OnBoard(src) && m in PawnCapture(p, src, df)
    ensures m.toSq == src + Forward(p.board[src]) + df && 0 <= FileOf(src) + df < 8
  {
  }

  /** Forward moves land on empty squares. */
  lemma PushesOntoEmpty(p: Position, src: int)
    requires WellFormed(p) && OnBoard(src)
    ensures forall m <- PawnPushes(p, src) :: OnBoard(m.toSq) && p.board[m.toSq] == '.'
  {
  }

  /** A pawn one rank behind and one file beside an enemy piece can take it:
      the file test of PawnSeen is exactly the edge test of the generator. */
  lemma PawnSideStep(src: int, f: int, df: int, sq: int)
    requires (df == -1 || df == 1) && (f == -8 || f == 8) && sq == src + f + df
    ensures FileDistance(src, sq) == 1 <==> 0 <= FileOf(src) + df < 8
  {
    FileOfVertical(src);
    FileOfSide(src + f, df);
  }

  lemma PawnAttackCapture(p: Position, sq: int) returns (src: int, m: Move)
    requires WellFormed(p) && Target(p, sq) && PawnAttack(p.board, sq, p.activeColor)
    ensures OnBoard(src) && ColorOf(p.board[src]) == Some(p.activeColor)
    ensures m in PieceMoves(p, src) && m.toSq == sq
  {
    var b := p.board;
    var df;
    if p.activeColor == "w" {
      if PawnSeen(b, sq, sq + 7, 'P') { src, df := sq + 7, 1; } else { src, df := sq + 9, -1; }
    } else {
      if PawnSeen(b, sq, sq - 7, 'p') { src, df := sq - 7, -1; } else { src, df := sq - 9, 1; }
    }
    PawnSideStep(src, Forward(b[src]), df, sq);
    var caps := PawnCapture(p, src, df);
    assert caps != [] && caps[0].toSq == sq;
    m := caps[0];
    PawnMovesParts(p, src);
  }

  lemma PawnCaptureAttack(p: Position, sq: int, src: int, m: Move)
    requires Consistent(p) && Target(p, sq) && Mover(p, src) && Upper(p.board[src]) == 'P'
    requires m in PawnMoves(p, src) && m.toSq == sq
    ensures PawnAttack(p.board, sq, p.activeColor)
  {
    var df := PawnSource(p, src, m);
    PushesOntoEmpty(p, src);
    if p.enpassant != "-" {
      EnpassantOntoTarget(p, src, df);
    }
    assert m in PawnCapture(p, src, df);
    PawnCaptureGeometry(p, src, df, m);
    PawnSideStep(src, Forward(p.board[src]), df, sq);
    assert IsPiece(p.board[src]);
  }

  // ---------------------------------------------------------------------
  // Knights and kings

  lemma LeaperAttackCapture(p: Position, sq: int, offs: seq<int>, reach: int, kind: char) returns (src: int, m: Move)
    requires WellFormed(p) && Target(p, sq) && Symmetric(offs)
    requires LeaperAttack(p.board, sq, offs, reach, p.activeColor, kind)
    ensures OnBoard(src) && Holds(p.board, src, p.activeColor, kind)
    ensures m in Leaps(p, src, offs, reach) && m.toSq == sq
  {
    var k :| 0 <= k < |offs| && LeaperSeen(p.board, sq, sq + offs[k], reach, p.activeColor, kind);
    src := sq + offs[k];
    var j := |offs| - 1 - k;
    assert src + offs[j] == sq;
    m := MakeMove(p, src, sq, None);
    assert Leap(p, src, offs[j], reach) == [m];
    GatherHas(offs, off requires WellFormed(p) && OnBoard(src) => Leap(p, src, off, reach), j, m);
  }

  lemma LeapCaptureAttack(p: Position, sq: int, src: int, offs: seq<int>, reach: int, m: Move)
    requires WellFormed(p) && Target(p, sq) && Mover(p, src) && Symmetric(offs)
    requires m in Leaps(p, src, offs, reach) && m.toSq == sq
    ensures LeaperAttack(p.board, sq, offs, reach, p.activeColor, Upper(p.board[src]))
  {
    LeapShape(p, src, offs, reach, m);
    var k :| 0 <= k < |offs| && offs[k] == sq - src;
    var j := |offs| - 1 - k;
    assert sq + offs[j] == src;
    assert LeaperSeen(p.board, sq, sq + offs[j], reach, p.activeColor, Upper(p.board[src]));
  }

  // ---------------------------------------------------------------------
  // Sliding pieces

  /** Walking back from the first piece met towards the scanned square:
      the ray of that piece in the opposite direction passes every empty
      square in between. */
  lemma {:induction false} RayBack(p: Position, src: int, d: int, x: int, m: Move)
    requires WellFormed(p) && OnBoard(src) && d != 0
    requires FirstPiece(p.board, d, x) == Some(src)
    requires m in Ray(p, src, -d, x - d)
    ensures m in Ray(p, src, -d, src - d)
    decreases if d > 0 then 64 - x else x
  {
    if x != src {
      assert Ray(p, src, -d, x) == [MakeMove(p, src, x, None)] + Ray(p, src, -d, x - d);
      RayBack(p, src, d, x + d, m);
    }
  }

  /** Walking a ray of the piece on src up to the square of a move it
      makes onto a piece: scanning back from that square meets src first. */
  lemma {:induction false} RayForward(p: Position, src: int, e: int, t: int, m: Move)
    requires WellFormed(p) && OnBoard(src) && e != 0
    requires FirstPiece(p.board, -e, t - e) == Some(src)
    requires m in Ray(p, src, e, t) && OnBoard(m.toSq) && p.board[m.toSq] != '.'
    ensures FirstPiece(p.board, -e, m.toSq - e) == Some(src)
    decreases if e > 0 then 64 - t else t
  {
    if m.toSq != t {
      assert p.board[t] == '.' && m in Ray(p, src, e, t + e);
      RayForward(p, src, e, t + e, m);
    }
  }

  /** A ray that makes a move starts next to its piece: scanning back
      from the piece's own square finds the piece. */
  lemma RayStart(p: Position, src: int, e: int, m: Move)
    requires WellFormed(p) && OnBoard(src) && e != 0 && p.board[src] != '.'
    requires m in Ray(p, src, e, src + e)
    ensures FirstPiece(p.board, -e, src) == Some(src)
  {
    assert OnBoard(src + e) && FileDistance(src + e, src) <= 1;
  }

  lemma RayAttackCapture(p: Position, sq: int, d: int) returns (src: int, m: Move)
    requires WellFormed(p) && Target(p, sq) && d != 0
    requires FirstPiece(p.board, d, sq + d).Some?
    requires ColorOf(p.board[FirstPiece(p.board, d, sq + d).value]) == Some(p.activeColor)
    ensures src == FirstPiece(p.board, d, sq + d).value
    ensures m in Ray(p, src, -d, src - d) && m.toSq == sq
  {
    src := FirstPiece(p.board, d, sq + d).value;
    m := MakeMove(p, src, sq, None);
    assert m in Ray(p, src, -d, sq);
    RayBack(p, src, d, sq + d, m);
  }

  lemma SlidesHas(p: Position, src: int, dirs: seq<int>, j: int, m: Move)
    requires WellFormed(p) && OnBoard(src) && 0 !in dirs && 0 <= j < |dirs|
    requires m in Ray(p, src, dirs[j], src + dirs[j])
    ensures m in Slides(p, src, dirs)
  {
    GatherHas(dirs, d requires WellFormed(p) && OnBoard(src) && d != 0 => Ray(p, src, d, src + d), j, m);
  }

  lemma SliderAttackCapture(p: Position, sq: int, dirs: seq<int>, kind1: char, kind2: char)
    returns (src: int, j: int, m: Move)
    requires WellFormed(p) && Target(p, sq) && 0 !in dirs && Symmetric(dirs)
    requires SliderAttack(p.board, sq, dirs, p.activeColor, kind1, kind2)
    ensures OnBoard(src) && ColorOf(p.board[src]) == Some(p.activeColor)
    ensures Upper(p.board[src]) == kind1 || Upper(p.board[src]) == kind2
    ensures 0 <= j < |dirs| && m in Ray(p, src, dirs[j], src + dirs[j]) && m.toSq == sq
  {
    var k :| 0 <= k < |dirs| && SliderHit(p.board, sq, dirs[k], p.activeColor, kind1, kind2);
    var d := dirs[k];
    src, m := RayAttackCapture(p, sq, d);
    j := |dirs| - 1 - k;
    assert dirs[j] == -d && src + dirs[j] == src - d;
  }

  /** A sliding move comes from the ray of one of the directions. */
  lemma SlideSource(p: Position, src: int, dirs: seq<int>, m: Move) returns (k: int)
    requires WellFormed(p) && OnBoard(src) && 0 !in dirs && m in Slides(p, src, dirs)
    ensures 0 <= k < |dirs| && m in Ray(p, src, dirs[k], src + dirs[k])
  {
    var f := d requires WellFormed(p) && OnBoard(src) && d != 0 => Ray(p, src, d, src + d);
    GatherMember(dirs, f, m);
    k :| 0 <= k < |dirs| && m in f(dirs[k]);
  }

  /** A ray move of the piece on src onto a piece: scanning from the target
      in the opposite direction meets src first. */
  lemma RayHitsBack(p: Position, src: int, e: int, m: Move)
    requires WellFormed(p) && OnBoard(src) && e != 0 && p.board[src] != '.'
    requires m in Ray(p, src, e, src + e) && OnBoard(m.toSq) && p.board[m.toSq] != '.'
    ensures FirstPiece(p.board, -e, m.toSq + -e) == Some(src)
  {
    RayStart(p, src, e, m);
    RayForward(p, src, e, src + e, m);
  }

  lemma SlideCaptureAttack(p: Position, sq: int, src: int, dirs: seq<int>, kind1: char, kind2: char, m: Move)
    requires WellFormed(p) && Target(p, sq) && Mover(p, src) && 0 !in dirs && Symmetric(dirs)
    requires Upper(p.board[src]) == kind1 || Upper(p.board[src]) == kind2
    requires m in Slides(p, src, dirs) && m.toSq == sq
    ensures SliderAttack(p.board, sq, dirs, p.activeColor, kind1, kind2)
  {
    var k := SlideSource(p, src, dirs, m);
    var e := dirs[k];
    RayHitsBack(p, src, e, m);
    var j := |dirs| - 1 - k;
    HitWitness(p.board, sq, dirs, j, p.activeColor, kind1, kind2, src);
  }

  lemma HitWitness(b: seq<char>, sq: int, dirs: seq<int>, j: int, side: string, kind1: char, kind2: char, src: int)
    requires |b| == 64 && 0 !in dirs && 0 <= j < |dirs| && OnBoard(src)
    requires FirstPiece(b, dirs[j], sq + dirs[j]) == Some(src)
    requires ColorOf(b[src]) == Some(side) && (Upper(b[src]) == kind1 || Upper(b[src]) == kind2)
    ensures SliderAttack(b, sq, dirs, side, kind1, kind2)
  {
    assert SliderHit(b, sq, dirs[j], side, kind1, kind2);
  }

  /** The queen's directions are the bishop's followed by the rook's. */
  lemma QueenRays(p: Position, src: int, m: Move)
    requires WellFormed(p) && OnBoard(src) && m in Slides(p, src, QueenDirs)
    ensures m in Slides(p, src, BishopDirs) || m in Slides(p, src, RookDirs)
  {
    var f := d requires WellFormed(p) && OnBoard(src) && d != 0 => Ray(p, src, d, src + d);
    GatherMember(QueenDirs, f, m);
    var k :| 0 <= k < 8 && m in f(QueenDirs[k]);
    if k < 4 {
      SlidesHas(p, src, BishopDirs, k, m);
    } else {
      SlidesHas(p, src, RookDirs, k - 4, m);
    }
  }

  lemma QueenHas(p: Position, src: int, m: Move)
    requires WellFormed(p) && OnBoard(src)
    requires m in Slides(p, src, BishopDirs) || m in Slides(p, src, RookDirs)
    ensures m in Slides(p, src, QueenDirs)
  {
    var f := d requires WellFormed(p) && OnBoard(src) && d != 0 => Ray(p, src, d, src + d);
    if m in Slides(p, src, BishopDirs) {
      GatherMember(BishopDirs, f, m);
      var k :| 0 <= k < 4 && m in f(BishopDirs[k]);
      SlidesHas(p, src, QueenDirs, k, m);
    } else {
      GatherMember(RookDirs, f, m);
      var k :| 0 <= k < 4 && m in f(RookDirs[k]);
      SlidesHas(p, src, QueenDirs, k + 4, m);
    }
  }

  /** A bishop or rook scan that finds a piece: the bishop, rook or queen
      it finds has a move onto the scanned square. */
  lemma SliderScanCapture(p: Position, sq: int, dirs: seq<int>, kind: char) returns (src: int, m: Move)
    requires WellFormed(p) && Target(p, sq)
    requires (dirs == BishopDirs && kind == 'B') || (dirs == RookDirs && kind == 'R')
    requires SliderAttack(p.board, sq, dirs, p.activeColor, kind, 'Q')
    ensures OnBoard(src) && ColorOf(p.board[src]) == Some(p.activeColor)
    ensures m in PieceMoves(p, src) && m.toSq == sq
  {
    OffsetsSymmetric();
    var j;
    src, j, m := SliderAttackCapture(p, sq, dirs, kind, 'Q');
    SlidesHas(p, src, dirs, j, m);
    if Upper(p.board[src]) == 'Q' {
      QueenHas(p, src, m);
    }
  }

  // ---------------------------------------------------------------------
  // The whole test

  /** An attack found by the scan is a pseudo-legal move onto the square. */
  lemma AttackGivesCapture(p: Position, sq: int) returns (m: Move)
    requires WellFormed(p) && Target(p, sq) && Attacked(p.board, sq, p.activeColor)
    ensures m in PseudoLegal(p) && m.toSq == sq
  {
    OffsetsSymmetric();
    var b, side := p.board, p.activeColor;
    var src;
    if PawnAttack(b, sq, side) {
      src, m := PawnAttackCapture(p, sq);
    } else if LeaperAttack(b, sq, KnightOffsets, 2, side, 'N') {
      src, m := LeaperAttackCapture(p, sq, KnightOffsets, 2, 'N');
    } else if SliderAttack(b, sq, BishopDirs, side, 'B', 'Q') {
      src, m := SliderScanCapture(p, sq, BishopDirs, 'B');
    } else if SliderAttack(b, sq, RookDirs, side, 'R', 'Q') {
      src, m := SliderScanCapture(p, sq, RookDirs, 'R');
    } else {
      src, m := LeaperAttackCapture(p, sq, KingOffsets, 1, 'K');
    }
    InPseudoLegal(p, src, m);
  }

  /** A pseudo-legal move onto a piece is an attack the scan finds. */
  lemma CaptureGivesAttack(p: Position, sq: int, m: Move)
    requires Consistent(p) && Target(p, sq) && m in PseudoLegal(p) && m.toSq == sq
    ensures Attacked(p.board, sq, p.activeColor)
  {
    OffsetsSymmetric();
    var src := PseudoLegalSource(p, m);
    var kind := Upper(p.board[src]);
    if kind == 'P' {
      PawnCaptureAttack(p, sq, src, m);
    } else if kind == 'N' {
      LeapCaptureAttack(p, sq, src, KnightOffsets, 2, m);
    } else if kind == 'B' {
      SlideCaptureAttack(p, sq, src, BishopDirs, 'B', 'Q', m);
    } else if kind == 'R' {
      SlideCaptureAttack(p, sq, src, RookDirs, 'R', 'Q', m);
    } else if kind == 'Q' {
      QueenRays(p, src, m);
      if m in Slides(p, src, BishopDirs) {
        SlideCaptureAttack(p, sq, src, BishopDirs, 'B', 'Q', m);
      } else {
        SlideCaptureAttack(p, sq, src, RookDirs, 'R', 'Q', m);
      }
    } else {
      assert kind == 'K' by { assert IsPiece(p.board[src]); }
      if m in CastleMoves(p, src) {
        CastleConditions(p, src, m);
      } else {
        LeapCaptureAttack(p, sq, src, KingOffsets, 1, m);
      }
    }
  }

  /** A piece of the side not to move is attacked by the side to move
      exactly when some pseudo-legal move of that side lands on it. */
  lemma AttackedIffCapture(p: Position, sq: int)
    requires Consistent(p) && Target(p, sq)
    ensures Attacked(p.board, sq, p.activeColor) <==> exists m :: m in PseudoLegal(p) && m.toSq == sq
  {
    if Attacked(p.board, sq, p.activeColor) {
      var m := AttackGivesCapture(p, sq);
    }
    forall m | m in PseudoLegal(p) && m.toSq == sq
      ensures Attacked(p.board, sq, p.activeColor)
    {
      CaptureGivesAttack(p, sq, m);
    }
  }
}
