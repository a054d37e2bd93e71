/** is_square_attacked: whether a piece of colour `side` attacks square sq,
    looking outward from sq for pawns, knights, bishops and queens on the
    diagonals, rooks and queens on the lines, and kings. The functions
    state what each scan finds; the methods are the scans over the board
    of a GameState, with the early returns of the engine. */
module Attacks {
  import opened Common
  import opened Squares
  import opened Pieces
  import opened Positions
  import opened State
  import opened Movegen

  // ---------------------------------------------------------------------
  // Pawns

  /** The pawn test as written: `pawn` on src, on another file than sq. */
  predicate PawnSeenAsWritten(b: seq<char>, sq: int, src: int, pawn: char)
    requires |b| == 64
  {
    OnBoard(src) && FileOf(src) != FileOf(sq) && b[src] == pawn
  }

  /** The pawn scan as written: a white pawn looked for at sq - 9 and
      sq - 7, a black one at sq + 9 and sq + 7. Those are the squares a
      pawn of that colour could reach sq FROM only by moving backwards. */
  predicate PawnAttackAsWritten(b: seq<char>, sq: int, side: string)
    requires |b| == 64
  {
    if side == "w" then PawnSeenAsWritten(b, sq, sq - 9, 'P') || PawnSeenAsWritten(b, sq, sq - 7, 'P')
    else PawnSeenAsWritten(b, sq, sq + 9, 'p') || PawnSeenAsWritten(b, sq, sq + 7, 'p')
  }

  /** `pawn` on src, on a neighbouring file of sq. */
  predicate PawnSeen(b: seq<char>, sq: int, src: int, pawn: char)
    requires |b| == 64
  {
    OnBoard(src) && FileDistance(src, sq) == 1 && b[src] == pawn
  }

  /** The pawn scan as intended: a white pawn one rank below sq (sq + 7,
      sq + 9), a black pawn one rank above (sq - 7, sq - 9), on a
      neighbouring file. */
  predicate PawnAttack(b: seq<char>, sq: int, side: string)
    requires |b| == 64
  {
    if side == "w" then PawnSeen(b, sq, sq + 7, 'P') || PawnSeen(b, sq, sq + 9, 'P')
    else PawnSeen(b, sq, sq - 7, 'p') || PawnSeen(b, sq, sq - 9, 'p')
  }

  // ---------------------------------------------------------------------
  // Knights and kings

  /** A piece of colour `side` and kind `kind` on src. */
  predicate Holds(b: seq<char>, src: int, side: string, kind: char)
    requires |b| == 64 && OnBoard(src)
  {
    b[src] != '.' && ColorOf(b[src]) == Some(side) && Upper(b[src]) == kind
  }

  predicate LeaperSeen(b: seq<char>, sq: int, src: int, reach: int, side: string, kind: char)
    requires |b| == 64
  {
    OnBoard(src) && FileDistance(src, sq) <= reach && Holds(b, src, side, kind)
  }

  /** Some offset leads from sq to a `kind` of colour `side` at most `reach`
      files away. */
  predicate LeaperAttack(b: seq<char>, sq: int, offs: seq<int>, reach: int, side: string, kind: char)
    requires |b| == 64
  {
    exists k :: 0 <= k < |offs| && LeaperSeen(b, sq, sq + offs[k], reach, side, kind)
  }

  // ---------------------------------------------------------------------
  // Sliding pieces

  /** The first occupied square met walking from `src` in steps of d, or
      None when the walk leaves the board or wraps round an edge first. */
  function FirstPiece(b: seq<char>, d: int, src: int): (r: Option<int>)
    requires |b| == 64 && d != 0
    ensures r.Some? ==> OnBoard(r.value) && b[r.value] != '.'
    decreases if d > 0 then 64 - src else src
  {
    if !OnBoard(src) || FileDistance(src, src - d) > 1 then None
    else if b[src] != '.' then Some(src)
    else FirstPiece(b, d, src + d)
  }

  /** The first piece met from sq along d has colour `side` and one of the
      two kinds. */
  predicate SliderHit(b: seq<char>, sq: int, d: int, side: string, kind1: char, kind2: char)
    requires |b| == 64 && d != 0
  {
    var f := FirstPiece(b, d, sq + d);
    f.Some? && ColorOf(b[f.value]) == Some(side) && (Upper(b[f.value]) == kind1 || Upper(b[f.value]) == kind2)
  }

  predicate SliderAttack(b: seq<char>, sq: int, dirs: seq<int>, side: string, kind1: char, kind2: char)
    requires |b| == 64 && 0 !in dirs
  {
    exists k :: 0 <= k < |dirs| && SliderHit(b, sq, dirs[k], side, kind1, kind2)
  }

  // ---------------------------------------------------------------------
  // The whole test

  /** is_square_attacked with the pawn scan as intended. */
  predicate Attacked(b: seq<char>, sq: int, side: string)
    requires |b| == 64
  {
    || PawnAttack(b, sq, side)
    || LeaperAttack(b, sq, KnightOffsets, 2, side, 'N')
    || SliderAttack(b, sq, BishopDirs, side, 'B', 'Q')
    || SliderAttack(b, sq, RookDirs, side, 'R', 'Q')
    || LeaperAttack(b, sq, KingOffsets, 1, side, 'K')
  }

  /** is_square_attacked as written. */
  predicate AttackedAsWritten(b: seq<char>, sq: int, side: string)
    requires |b| == 64
  {
    || PawnAttackAsWritten(b, sq, side)
    || LeaperAttack(b, sq, KnightOffsets, 2, side, 'N')
    || SliderAttack(b, sq, BishopDirs, side, 'B', 'Q')
    || SliderAttack(b, sq, RookDirs, side, 'R', 'Q')
    || LeaperAttack(b, sq, KingOffsets, 1, side, 'K')
  }

  /** With a white pawn on e4 and a black king on d5, the scan as written
      does not see the pawn that can take the king, and with the pawn on
      d5 and the king on e4 it reports an attack by a pawn that can never
      reach e4. */
  lemma PawnAttackAsWrittenMisses()
    ensures var p := Position(seq(64, k => if k == 36 then 'P' else if k == 27 then 'k' else '.'), "w", "-", "-", 0, 1);
      && WellFormed(p)
      && !PawnAttackAsWritten(p.board, 27, "w")
      && PawnAttack(p.board, 27, "w")
      && PawnCapture(p, 36, -1) == [MakeMove(p, 36, 27, None)]
    ensures var b := seq(64, k => if k == 27 then 'P' else if k == 36 then 'k' else '.');
      && PawnAttackAsWritten(b, 36, "w")
      && !PawnAttack(b, 36, "w")
  {
    var p := Position(seq(64, k => if k == 36 then 'P' else if k == 27 then 'k' else '.'), "w", "-", "-", 0, 1);
    assert p.board[36] == 'P' && p.board[27] == 'k' && p.board[18] == '.' && p.board[20] == '.';
    assert FileOf(36) == 4 && FileOf(27) == 3 && RankOf(27) == 3;
    var b := seq(64, k => if k == 27 then 'P' else if k == 36 then 'k' else '.');
    assert b[27] == 'P' && b[29] == '.' && b[43] == '.' && b[45] == '.';
  }

  /** A pawn of colour `side` one diagonal step from sq, in index terms. */
  predicate PawnOnDiagonal(b: seq<char>, sq: int, side: string)
    requires |b| == 64
  {
    var pawn := if side == "w" then 'P' else 'p';
    || (OnBoard(sq - 9) && b[sq - 9] == pawn) || (OnBoard(sq - 7) && b[sq - 7] == pawn)
    || (OnBoard(sq + 7) && b[sq + 7] == pawn) || (OnBoard(sq + 9) && b[sq + 9] == pawn)
  }

  /** The two pawn scans look only at the diagonal neighbours, so the
      test as written and the corrected one part only through a pawn
      there. */
  lemma {:induction false} AttackedAgreesAwayFromPawns(b: seq<char>, sq: int, side: string)
    requires |b| == 64 && !PawnOnDiagonal(b, sq, side)
    ensures Attacked(b, sq, side) == AttackedAsWritten(b, sq, side)
    ensures !PawnAttack(b, sq, side) && !PawnAttackAsWritten(b, sq, side)
  {
  }

  // ---------------------------------------------------------------------
  // The scans over a GameState

  /** The pawn part of is_square_attacked, scanning the two squares a pawn
      of colour `side` captures sq from. */
  method ScanPawns(state: GameState, sq: int, side: string) returns (r: bool)
    requires state.Valid()
    ensures r == PawnAttack(state.board[..], sq, side)
  {
    var offs := if side == "w" then [7, 9] else [-7, -9];
    var pawn := if side == "w" then 'P' else 'p';
    for k := 0 to 2
      invariant forall j :: 0 <= j < k ==> !PawnSeen(state.board[..], sq, sq + offs[j], pawn)
    {
      var src := sq + offs[k];
      if OnBoard(src) && Abs(FileOf(src) - FileOf(sq)) == 1 && state.board[src] == pawn {
        return true;
      }
    }
    assert !PawnSeen(state.board[..], sq, sq + offs[0], pawn) && !PawnSeen(state.board[..], sq, sq + offs[1], pawn);
    return false;
  }

  /** The knight and king parts: a `kind` of colour `side` at one of the
      offsets from sq, at most `reach` files away. */
  method ScanLeapers(state: GameState, sq: int, offs: seq<int>, reach: int, side: string, kind: char) returns (r: bool)
    requires state.Valid()
    ensures r == LeaperAttack(state.board[..], sq, offs, reach, side, kind)
  {
    for k := 0 to |offs|
      invariant forall j :: 0 <= j < k ==> !LeaperSeen(state.board[..], sq, sq + offs[j], reach, side, kind)
    {
      var src := sq + offs[k];
      if OnBoard(src) && Abs(FileOf(src) - FileOf(sq)) <= reach {
        var p := state.board[src];
        if p != '.' && ColorOf(p) == Some(side) && Upper(p) == kind {
          return true;
        }
      }
    }
    return false;
  }

  /** One direction of the sliding scans: walk from sq + d to the first
      occupied square and test its colour and kind. */
  method ScanRay(state: GameState, sq: int, d: int, side: string, kind1: char, kind2: char) returns (r: bool)
    requires state.Valid() && d != 0
    ensures r == SliderHit(state.board[..], sq, d, side, kind1, kind2)
  {
    ghost var b := state.board[..];
    var src := sq + d;
    while OnBoard(src) && Abs(FileOf(src) - FileOf(src - d)) <= 1
      invariant FirstPiece(b, d, src) == FirstPiece(b, d, sq + d)
      decreases if d > 0 then 64 - src else src
    {
      var p := state.board[src];
      if p != '.' {
        if ColorOf(p) == Some(side) && (Upper(p) == kind1 || Upper(p) == kind2) {
          return true;
        }
        return false;
      }
      src := src + d;
    }
    return false;
  }

  /** The bishop/queen and rook/queen parts: every direction in turn. */
  method ScanSliders(state: GameState, sq: int, dirs: seq<int>, side: string, kind1: char, kind2: char) returns (r: bool)
    requires state.Valid() && 0 !in dirs
    ensures r == SliderAttack(state.board[..], sq, dirs, side, kind1, kind2)
  {
    for k := 0 to |dirs|
      invariant forall j :: 0 <= j < k ==> !SliderHit(state.board[..], sq, dirs[j], side, kind1, kind2)
    {
      r := ScanRay(state, sq, dirs[k], side, kind1, kind2);
      if r {
        return;
      }
    }
    return false;
  }

  /** is_square_attacked: pawns, knights, diagonals, lines, king, stopping
      at the first attacker found. The pawn scan is the intended one. */
  method IsSquareAttacked(state: GameState, sq: int, side: string) returns (r: bool)
    requires state.Valid()
    ensures r == Attacked(state.board[..], sq, side)
  {
    r := ScanPawns(state, sq, side);
    if r {
      return;
    }
    r := ScanLeapers(state, sq, KnightOffsets, 2, side, 'N');
    if r {
      return;
    }
    r := ScanSliders(state, sq, BishopDirs, side, 'B', 'Q');
    if r {
      return;
    }
    r := ScanSliders(state, sq, RookDirs, side, 'R', 'Q');
    if r {
      return;
    }
    r := ScanLeapers(state, sq, KingOffsets, 1, side, 'K');
  }
}
