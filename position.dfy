/** The position record, the move record, and what applying and undoing a
    move does to a position (GameState.make_move_struct, push_move and
    pop_move, stated on values). */
module Positions {
  import opened Common
  import opened Squares
  import opened Pieces

  /** A move with the snapshot of the rights, en-passant target and
      halfmove clock it was made from. */
  datatype Move = Move(fromSq: int, toSq: int, piece: char, captured: char, promotion: Option<char>,
                       isCastle: bool, isEnpassant: bool,
                       prevCastling: string, prevEnpassant: string, prevHalfmove: int)

  /** Everything GameState holds apart from the history and the hash. */
  datatype Position = Position(board: seq<char>, activeColor: string, castling: string,
                               enpassant: string, halfmove: int, fullmove: int)

  predicate ValidColor(c: string) { c == "w" || c == "b" }

  predicate IsCastlingChar(c: char) {
    c == 'K' || c == 'Q' || c == 'k' || c == 'q' || c == '-'
  }

  predicate ValidCastling(s: string) {
    forall k :: 0 <= k < |s| ==> IsCastlingChar(s[k])
  }

  predicate ValidEnpassant(s: string) { s == "-" || IsSquareName(s) }

  /** The shape every GameState keeps: 64 cells, a side to move, castling
      letters from KQkq-, and "-" or a square name as en-passant target. */
  predicate WellFormed(p: Position) {
    && |p.board| == 64
    && (forall k {:trigger IsCell(p.board[k])} :: 0 <= k < 64 ==> IsCell(p.board[k]))
    && ValidColor(p.activeColor)
    && ValidCastling(p.castling)
    && ValidEnpassant(p.enpassant)
  }

  /** The square of the pawn an en-passant capture removes: behind the
      target square as seen from the mover. */
  function EpCaptureSquare(m: Move): int {
    if IsUpper(m.piece) then m.toSq + 8 else m.toSq - 8
  }

  /** The rook squares of a castling move: h-side when the king lands on
      the g file, the a-side otherwise. */
  function RookFrom(m: Move): int {
    if m.toSq % 8 == 6 then m.toSq + 1 else m.toSq - 2
  }

  function RookTo(m: Move): int {
    if m.toSq % 8 == 6 then m.toSq - 1 else m.toSq + 1
  }

  /** Every square push_move and pop_move touch is on the board. */
  predicate InRange(m: Move) {
    && OnBoard(m.fromSq) && OnBoard(m.toSq)
    && (m.isEnpassant ==> OnBoard(EpCaptureSquare(m)))
    && (m.isCastle ==> OnBoard(RookFrom(m)) && OnBoard(RookTo(m)))
  }

  /** A move whose application and undoing keep a position well formed. */
  predicate WellFormedMove(m: Move) {
    && InRange(m)
    && IsPiece(m.piece)
    && IsCell(m.captured)
    && (m.promotion.Some? ==> IsPiece(m.promotion.value))
    && ValidCastling(m.prevCastling)
    && ValidEnpassant(m.prevEnpassant)
  }

  function FileDistance(a: int, b: int): nat {
    Abs(FileOf(a) - FileOf(b))
  }

  /** The pawn of the other colour than `piece`. */
  function EnemyPawn(piece: char): char {
    if IsUpper(piece) then 'p' else 'P'
  }

  /** make_move_struct: the moving and captured pieces are read from the
      board; a pawn moving one file sideways onto the empty en-passant
      target is an en-passant capture of the pawn behind it; a king moving
      two files is a castle. */
  function MakeMove(p: Position, from: int, to: int, promotion: Option<char>): (m: Move)
    requires WellFormed(p) && OnBoard(from) && OnBoard(to)
    ensures m.fromSq == from && m.toSq == to && m.promotion == promotion && m.piece == p.board[from]
    ensures m.prevCastling == p.castling && m.prevEnpassant == p.enpassant && m.prevHalfmove == p.halfmove
    ensures m.isEnpassant <==> Upper(p.board[from]) == 'P' && p.board[to] == '.' && FileDistance(from, to) == 1
                                 && p.enpassant != "-" && to == SqToCoords(p.enpassant)
    ensures m.captured == if m.isEnpassant then EnemyPawn(m.piece) else p.board[to]
    ensures m.isCastle <==> Upper(p.board[from]) == 'K' && FileDistance(from, to) == 2
  {
    var piece := p.board[from];
    var captured := p.board[to];
    var isEnpassant :=
      Upper(piece) == 'P' && captured == '.' && FileDistance(from, to) == 1
      && p.enpassant != "-" && to == SqToCoords(p.enpassant);
    var isCastle := Upper(piece) == 'K' && FileDistance(from, to) == 2;
    Move(from, to, piece, if isEnpassant then EnemyPawn(piece) else captured, promotion,
         isCastle, isEnpassant, p.castling, p.enpassant, p.halfmove)
  }

  /** The board after push_move's cell updates. */
  function ApplyBoard(b: seq<char>, m: Move): (r: seq<char>)
    requires |b| == 64 && InRange(m)
    ensures |r| == 64
  {
    var b1 := b[m.toSq := m.promotion.GetOr(m.piece)][m.fromSq := '.'];
    var b2 := if m.isEnpassant then b1[EpCaptureSquare(m) := '.'] else b1;
    if m.isCastle then b2[RookTo(m) := b2[RookFrom(m)]][RookFrom(m) := '.'] else b2
  }

  predicate IsDoubleStep(m: Move) {
    Upper(m.piece) == 'P' && Abs(m.toSq - m.fromSq) == 16
  }

  /** The en-passant target after m: the square a double step passed over. */
  function NextEnpassant(m: Move): string
    requires InRange(m)
  {
    if IsDoubleStep(m) then IdxToSq((m.fromSq + m.toSq) / 2) else "-"
  }

  /** The halfmove clock after m. */
  function NextHalfmove(halfmove: int, m: Move): int {
    if Upper(m.piece) == 'P' || m.captured != '.' then 0 else halfmove + 1
  }

  /** The fullmove number after a move by `color`. */
  function NextFullmove(color: string, fullmove: int): int {
    if color == "b" then fullmove + 1 else fullmove
  }

  /** push_move on values. */
  function Apply(p: Position, m: Move): (q: Position)
    requires |p.board| == 64 && InRange(m)
    ensures |q.board| == 64
  {
    Position(ApplyBoard(p.board, m), Opponent(p.activeColor), m.prevCastling,
             NextEnpassant(m), NextHalfmove(p.halfmove, m), NextFullmove(p.activeColor, p.fullmove))
  }

  /** The board after pop_move's cell updates. */
  function UndoBoard(b: seq<char>, m: Move): (r: seq<char>)
    requires |b| == 64 && InRange(m)
    ensures |r| == 64
  {
    var b1 := b[m.fromSq := m.piece];
    var b2 := if m.isEnpassant then b1[EpCaptureSquare(m) := EnemyPawn(m.piece)][m.toSq := '.']
              else b1[m.toSq := m.captured];
    if m.isCastle then b2[RookFrom(m) := b2[RookTo(m)]][RookTo(m) := '.'] else b2
  }

  /** pop_move on values, given the move taken off the history. */
  function Undo(p: Position, m: Move): (q: Position)
    requires |p.board| == 64 && InRange(m)
    ensures |q.board| == 64
  {
    var color := Opponent(p.activeColor);
    Position(
      UndoBoard(p.board, m),
      color,
      m.prevCastling,
      m.prevEnpassant,
      m.prevHalfmove,
      if color == "b" then p.fullmove - 1 else p.fullmove)
  }

  /** What undoing relies on beyond the move's own snapshot: the pawn an
      en-passant capture removes really stands behind the target, and a
      castle's rook squares are apart from the king's and the rook's
      destination is empty. */
  predicate Restorable(p: Position, m: Move)
    requires |p.board| == 64
  {
    && InRange(m)
    && (m.isEnpassant ==> p.board[EpCaptureSquare(m)] == EnemyPawn(m.piece))
    && (m.isCastle ==>
          && p.board[RookTo(m)] == '.'
          && RookFrom(m) != m.fromSq && RookFrom(m) != m.toSq
          && RookTo(m) != m.fromSq && RookTo(m) != m.toSq)
  }

  lemma ApplyUndoBoard(p: Position, m: Move)
    requires WellFormed(p) && OnBoard(m.fromSq) && OnBoard(m.toSq)
    requires m == MakeMove(p, m.fromSq, m.toSq, m.promotion)
    requires Restorable(p, m)
    ensures UndoBoard(ApplyBoard(p.board, m), m) == p.board
  {
    var b := p.board;
    var r := UndoBoard(ApplyBoard(b, m), m);
    if m.isEnpassant {
      FileOfVertical(m.toSq);
      forall k | 0 <= k < 64 ensures r[k] == b[k] {
        if k == m.fromSq {
        } else if k == EpCaptureSquare(m) {
        } else if k == m.toSq {
        }
      }
    } else if m.isCastle {
      forall k | 0 <= k < 64 ensures r[k] == b[k] {
      }
    } else {
      forall k | 0 <= k < 64 ensures r[k] == b[k] {
      }
    }
  }

  /** pop_move undoes push_move: for a move made on `p` (whose en-passant
      victim and castling rook squares are as push_move expects), applying
      and then undoing it gives back `p` exactly. */
  lemma UndoApply(p: Position, m: Move)
    requires WellFormed(p) && OnBoard(m.fromSq) && OnBoard(m.toSq)
    requires m == MakeMove(p, m.fromSq, m.toSq, m.promotion)
    requires Restorable(p, m)
    ensures Undo(Apply(p, m), m) == p
  {
    ApplyUndoBoard(p, m);
  }

  /** Squares push_move writes. */
  function Touched(m: Move): set<int> {
    {m.fromSq, m.toSq}
    + (if m.isEnpassant then {EpCaptureSquare(m)} else {})
    + (if m.isCastle then {RookFrom(m), RookTo(m)} else {})
  }

  /** What push_move does to everything but the board: the side to move
      flips, the castling rights are the move's snapshot (they are never
      revoked), an en-passant target is set exactly after a pawn double step
      and names the square it passed over, the halfmove clock restarts after
      a pawn move or a capture and counts up otherwise, and the fullmove
      number grows after black's move. */
  lemma PushFields(p: Position, m: Move)
    requires WellFormed(p) && OnBoard(m.fromSq) && OnBoard(m.toSq)
    requires m == MakeMove(p, m.fromSq, m.toSq, m.promotion) && InRange(m)
    ensures var q := Apply(p, m);
      && ValidColor(q.activeColor) && q.activeColor != p.activeColor
      && q.castling == p.castling
      && (q.enpassant != "-" <==> Upper(m.piece) == 'P' && Abs(m.toSq - m.fromSq) == 16)
      && (q.enpassant != "-" ==> IsSquareName(q.enpassant) && SqToCoords(q.enpassant) == (m.fromSq + m.toSq) / 2)
      && (Upper(m.piece) == 'P' || m.captured != '.' ==> q.halfmove == 0)
      && (Upper(m.piece) != 'P' && m.captured == '.' ==> q.halfmove == p.halfmove + 1)
      && q.fullmove == (if p.activeColor == "b" then p.fullmove + 1 else p.fullmove)
  {
    if IsDoubleStep(m) {
      IndexRoundTrip((m.fromSq + m.toSq) / 2);
    }
  }

  /** What push_move does to the board: the moved (or promoted) piece
      stands on the target, the origin is empty, an en-passant victim is
      removed, a castling rook jumps over the king, and every other square
      is unchanged. */
  lemma PushBoard(p: Position, m: Move)
    requires WellFormed(p) && OnBoard(m.fromSq) && OnBoard(m.toSq)
    requires m == MakeMove(p, m.fromSq, m.toSq, m.promotion)
    requires Restorable(p, m) && m.fromSq != m.toSq
    ensures var b := ApplyBoard(p.board, m);
      && b[m.toSq] == m.promotion.GetOr(m.piece)
      && b[m.fromSq] == '.'
      && (m.isEnpassant ==> b[EpCaptureSquare(m)] == '.')
      && (m.isCastle ==> b[RookTo(m)] == p.board[RookFrom(m)] && b[RookFrom(m)] == '.')
      && (forall k :: 0 <= k < 64 && k !in Touched(m) ==> b[k] == p.board[k])
  {
    if m.isEnpassant {
      FileOfVertical(m.toSq);
      assert !m.isCastle;
    }
  }

  /** Applying a well-formed move keeps a position well formed. */
  lemma ApplyWellFormed(p: Position, m: Move)
    requires WellFormed(p) && WellFormedMove(m)
    ensures WellFormed(Apply(p, m))
  {
    var q := Apply(p, m);
    forall k | 0 <= k < 64 ensures IsCell(q.board[k]) {
    }
  }

  /** Undoing a well-formed move keeps a position well formed. */
  lemma UndoWellFormed(p: Position, m: Move)
    requires WellFormed(p) && WellFormedMove(m)
    ensures WellFormed(Undo(p, m))
  {
    var u := Undo(p, m);
    forall k | 0 <= k < 64 ensures IsCell(u.board[k]) {
    }
  }
}
