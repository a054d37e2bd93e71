/** class GameState: the board as a 64-cell array updated in place, the
    side to move, castling rights, en-passant target, clocks, the history
    stack of pushed moves and the cached position hash. */
module State {
  import opened Common
  import opened Squares
  import opened Pieces
  import opened Positions
  import opened Zobrist
  import Fen

  function PositionOf(rec: Fen.FenRecord): Position {
    Position(rec.board, rec.activeColor, rec.castling, rec.enpassant, rec.halfmove, rec.fullmove)
  }

  class GameState {
    const board: array<char>
    var activeColor: string
    var castling: string
    var enpassant: string
    var halfmove: int
    var fullmove: int
    var history: seq<Move>
    var currentZobrist: nat
    const keys: KeyTable

    /** The position the fields describe. */
    function Snapshot(): Position
      reads this, board
    {
      Position(board[..], activeColor, castling, enpassant, halfmove, fullmove)
    }

    /** A 64-cell well-formed position whose cached hash is up to date,
        and a history of moves that can be undone. */
    predicate Valid()
      reads this, board
    {
      && board.Length == 64
      && WellFormed(Snapshot())
      && currentZobrist == Hash(keys, Snapshot())
      && (forall k :: 0 <= k < |history| ==> WellFormedMove(history[k]))
    }

    /** GameState(fen): the position fen_to_board reads, an empty history
        and the hash of the position. */
    constructor (fen: string, keys: KeyTable)
      requires Fen.ParseFen(fen).Ok? && WellFormed(PositionOf(Fen.ParseFen(fen).value))
      ensures Valid() && fresh(board)
      ensures Snapshot() == PositionOf(Fen.ParseFen(fen).value) && history == []
    {
      var r := Fen.FenToBoard(fen);
      var rec := r.value;
      var cells := rec.board;
      board := new char[64](k => if 0 <= k < |cells| then cells[k] else '.');
      activeColor := rec.activeColor;
      castling := rec.castling;
      enpassant := rec.enpassant;
      halfmove := rec.halfmove;
      fullmove := rec.fullmove;
      history := [];
      this.keys := keys;
      currentZobrist := 0;
      new;
      assert board[..] == cells;
      currentZobrist := ComputeZobrist();
    }

    /** compute_zobrist: the XOR of the keys of every occupied square, of
        black to move, of each castling letter and of the en-passant file. */
    method ComputeZobrist() returns (h: nat)
      requires board.Length == 64 && WellFormed(Snapshot())
      ensures h == Hash(keys, Snapshot())
    {
      h := 0;
      for sq := 0 to 64
        invariant h == BoardHash(keys, board[..sq])
      {
        var p := board[sq];
        if p != '.' {
          h := Xor(h, keys(PieceSquare(p, sq)));
        }
        assert board[..sq + 1][..sq] == board[..sq];
      }
      assert board[..64] == board[..];
      if activeColor == "b" {
        h := Xor(h, keys(SideToMove));
      }
      ghost var base := h;
      assert base == Xor(BoardHash(keys, board[..]), SideHash(keys, activeColor));
      for k := 0 to |castling|
        invariant h == Xor(base, CastlingHash(keys, castling[..k]))
      {
        var c := castling[k];
        assert castling[..k + 1][..k] == castling[..k];
        var key := if c != '-' then keys(CastleRight(c)) else 0;
        XorAssoc(base, CastlingHash(keys, castling[..k]), key);
        h := Xor(h, key);
      }
      assert castling[..|castling|] == castling;
      if enpassant != "-" {
        var file := enpassant[0] as int - 'a' as int;
        h := Xor(h, keys(EpFile(file)));
      }
    }

    /** push_move: the position becomes Apply(old position, m), m goes on
        top of the history and the hash is recomputed. */
    method PushMove(m: Move)
      modifies this, board
      requires Valid() && WellFormedMove(m)
      ensures Valid()
      ensures Snapshot() == Apply(old(Snapshot()), m)
      ensures history == old(history) + [m]
    {
      ghost var p := Snapshot();
      history := history + [m];
      PlaceCells(m);
      AdvanceClocks(m);
      assert Snapshot() == Apply(p, m);
      ApplyWellFormed(p, m);
      currentZobrist := ComputeZobrist();
    }

    /** The field updates of push_move: castling from the move's snapshot,
        the en-passant target of a double step, the clocks, and the side to
        move. */
    method AdvanceClocks(m: Move)
      modifies this
      requires InRange(m)
      ensures castling == m.prevCastling && enpassant == NextEnpassant(m)
      ensures halfmove == NextHalfmove(old(halfmove), m) && fullmove == NextFullmove(old(activeColor), old(fullmove))
      ensures activeColor == Opponent(old(activeColor))
      ensures history == old(history) && currentZobrist == old(currentZobrist)
    {
      castling := m.prevCastling;
      enpassant := "-";
      if Upper(m.piece) == 'P' && Abs(m.toSq - m.fromSq) == 16 {
        var epSq := (m.fromSq + m.toSq) / 2;
        enpassant := IdxToSq(epSq);
      }
      if Upper(m.piece) == 'P' || m.captured != '.' {
        halfmove := 0;
      } else {
        halfmove := halfmove + 1;
      }
      if activeColor == "b" {
        fullmove := fullmove + 1;
      }
      activeColor := if activeColor == "w" then "b" else "w";
    }

    /** The board writes of push_move: the mover (or its promotion) onto
        the target, the origin emptied, an en-passant victim removed and a
        castling rook moved. */
    method PlaceCells(m: Move)
      modifies board
      requires board.Length == 64 && InRange(m)
      ensures board[..] == ApplyBoard(old(board[..]), m)
    {
      ghost var b := board[..][m.toSq := m.promotion.GetOr(m.piece)][m.fromSq := '.'];
      board[m.toSq] := if m.promotion.Some? then m.promotion.value else m.piece;
      board[m.fromSq] := '.';
      assert board[..] == b;
      if m.isEnpassant {
        var capSq := if IsUpper(m.piece) then m.toSq + 8 else m.toSq - 8;
        board[capSq] := '.';
        b := b[capSq := '.'];
      }
      assert board[..] == b;
      if m.isCastle {
        var rookFrom, rookTo;
        if m.toSq % 8 == 6 {
          rookFrom, rookTo := m.toSq + 1, m.toSq - 1;
        } else {
          rookFrom, rookTo := m.toSq - 2, m.toSq + 1;
        }
        board[rookTo] := board[rookFrom];
        board[rookFrom] := '.';
        b := b[rookTo := b[rookFrom]][rookFrom := '.'];
      }
      assert board[..] == b;
    }

    /** pop_move: with an empty history nothing changes; otherwise the top
        move is taken off the history and the position becomes
        Undo(old position, that move), with the hash recomputed. */
    method PopMove()
      modifies this, board
      requires Valid()
      ensures Valid()
      ensures old(history) == [] ==>
        Snapshot() == old(Snapshot()) && history == [] && currentZobrist == old(currentZobrist)
      ensures old(history) != [] ==>
        && history == old(history)[..|old(history)| - 1]
        && Snapshot() == Undo(old(Snapshot()), old(history)[|old(history)| - 1])
    {
      if history == [] {
        return;
      }
      ghost var p := Snapshot();
      var m := history[|history| - 1];
      history := history[..|history| - 1];
      RestoreCells(m);
      RewindClocks(m);
      assert Snapshot() == Undo(p, m);
      UndoWellFormed(p, m);
      currentZobrist := ComputeZobrist();
    }

    /** The field updates of pop_move: the side to move flips back, the
        fullmove number drops when black is to move again, and castling,
        en-passant target and halfmove clock come from the move's snapshot. */
    method RewindClocks(m: Move)
      modifies this
      ensures activeColor == Opponent(old(activeColor))
      ensures fullmove == if activeColor == "b" then old(fullmove) - 1 else old(fullmove)
      ensures castling == m.prevCastling && enpassant == m.prevEnpassant && halfmove == m.prevHalfmove
      ensures history == old(history) && currentZobrist == old(currentZobrist)
    {
      activeColor := if activeColor == "w" then "b" else "w";
      if activeColor == "b" {
        fullmove := fullmove - 1;
      }
      castling := m.prevCastling;
      enpassant := m.prevEnpassant;
      halfmove := m.prevHalfmove;
    }

    /** The board writes of pop_move: the mover back on its origin, the
        captured piece (or the en-passant victim behind the target) back,
        and a castling rook returned. */
    method RestoreCells(m: Move)
      modifies board
      requires board.Length == 64 && InRange(m)
      ensures board[..] == UndoBoard(old(board[..]), m)
    {
      ghost var b := board[..][m.fromSq := m.piece];
      board[m.fromSq] := m.piece;
      if m.isEnpassant {
        if IsUpper(m.piece) {
          var capSq := m.toSq + 8;
          board[capSq] := 'p';
          b := b[capSq := 'p'];
        } else {
          var capSq := m.toSq - 8;
          board[capSq] := 'P';
          b := b[capSq := 'P'];
        }
        board[m.toSq] := '.';
        b := b[m.toSq := '.'];
      } else {
        board[m.toSq] := m.captured;
        b := b[m.toSq := m.captured];
      }
      assert board[..] == b;
      if m.isCastle {
        var rookFrom, rookTo;
        if m.toSq % 8 == 6 {
          rookFrom, rookTo := m.toSq + 1, m.toSq - 1;
        } else {
          rookFrom, rookTo := m.toSq - 2, m.toSq + 1;
        }
        board[rookFrom] := board[rookTo];
        board[rookTo] := '.';
        b := b[rookFrom := b[rookTo]][rookTo := '.'];
      }
      assert board[..] == b;
    }

    /** make_move_struct: the move from `from` to `to` on the current
        position, with its en-passant and castling flags and the snapshot
        pop_move needs. */
    method MakeMoveStruct(from: int, to: int, promotion: Option<char>) returns (m: Move)
      requires Valid() && OnBoard(from) && OnBoard(to)
      ensures m == MakeMove(Snapshot(), from, to, promotion)
    {
      var piece := board[from];
      var captured := board[to];
      var isEnpassant := false;
      var isCastle := false;
      if Upper(piece) == 'P' && captured == '.' {
        var fromFile := from % 8;
        var toFile := to % 8;
        if Abs(fromFile - toFile) == 1 {
          if enpassant != "-" {
            var epSq := SqToCoords(enpassant);
            if to == epSq {
              isEnpassant := true;
              captured := if IsUpper(piece) then 'p' else 'P';
            }
          }
        }
      }
      if Upper(piece) == 'K' && Abs(from % 8 - to % 8) == 2 {
        isCastle := true;
      }
      m := Move(from, to, piece, captured, promotion, isCastle, isEnpassant, castling, enpassant, halfmove);
    }
  }
}
