/** The move generators as the engine runs them: loops over the board of a
    GameState that append to a list of moves, each proved to append exactly
    the moves the matching function of Movegen describes. */
module Generators {
  import opened Common
  import opened Squares
  import opened Pieces
  import opened Positions
  import opened State
  import opened Movegen

  /** The four promotions of a move from `from` to `to`, appended in the
      order Q, R, B, N. */
  method AddPromotions(state: GameState, from: int, to: int, moves: seq<Move>) returns (r: seq<Move>)
    requires state.Valid() && OnBoard(from) && OnBoard(to)
    ensures r == moves + Promotions(state.Snapshot(), from, to)
  {
    ghost var p := state.Snapshot();
    var pc := state.board[from];
    r := moves;
    for k := 0 to 4
      invariant r == moves + Promotions(p, from, to)[..k]
    {
      var prom := PromotionKinds[k];
      var promotion := if IsUpper(pc) then prom else Lower(prom);
      var m := state.MakeMoveStruct(from, to, Some(promotion));
      assert Promotions(p, from, to)[..k + 1] == Promotions(p, from, to)[..k] + [m];
      r := r + [m];
    }
    assert Promotions(p, from, to)[..4] == Promotions(p, from, to);
  }

  /** The forward moves of the pawn on i. */
  method AddPawnPushes(state: GameState, i: int, moves: seq<Move>) returns (r: seq<Move>)
    requires state.Valid() && OnBoard(i)
    ensures r == moves + PawnPushes(state.Snapshot(), i)
  {
    var pc := state.board[i];
    var dirForward := if IsUpper(pc) then -8 else 8;
    var startRank := if IsUpper(pc) then 6 else 1;
    var promoteRank := if IsUpper(pc) then 0 else 7;
    var to := i + dirForward;
    r := moves;
    if OnBoard(to) && state.board[to] == '.' {
      if RankOf(to) == promoteRank {
        r := AddPromotions(state, i, to, r);
      } else {
        var m := state.MakeMoveStruct(i, to, None);
        r := r + [m];
        if RankOf(i) == startRank {
          var to2 := i + 2 * dirForward;
          if state.board[to2] == '.' {
            m := state.MakeMoveStruct(i, to2, None);
            r := r + [m];
          }
        }
      }
    }
  }

  /** The diagonal captures of the pawn on i, left then right. */
  method AddPawnCaptures(state: GameState, i: int, moves: seq<Move>) returns (r: seq<Move>)
    requires state.Valid() && OnBoard(i)
    ensures r == moves + PawnCaptures(state.Snapshot(), i, Sides)
  {
    ghost var p := state.Snapshot();
    r := moves;
    for k := 0 to 2
      invariant r == moves + PawnCaptures(p, i, Sides[..k])
    {
      PawnCapturesSnoc(p, i, Sides, k);
      r := AddPawnCapture(state, i, Sides[k], r);
    }
    assert Sides[..2] == Sides;
  }

  /** The capture on side df: onto an enemy piece one rank ahead, with the
      four promotions on the last rank. */
  method AddPawnCapture(state: GameState, i: int, df: int, moves: seq<Move>) returns (r: seq<Move>)
    requires state.Valid() && OnBoard(i)
    ensures r == moves + PawnCapture(state.Snapshot(), i, df)
  {
    var pc := state.board[i];
    var dirForward := if IsUpper(pc) then -8 else 8;
    var promoteRank := if IsUpper(pc) then 0 else 7;
    r := moves;
    var file := FileOf(i) + df;
    if 0 <= file < 8 {
      var capSq := i + dirForward + df;
      if OnBoard(capSq) {
        var target := state.board[capSq];
        if target != '.' && ColorOf(target).Some? && ColorOf(target) != ColorOf(pc) {
          if RankOf(capSq) == promoteRank {
            r := AddPromotions(state, i, capSq, r);
          } else {
            var m := state.MakeMoveStruct(i, capSq, None);
            r := r + [m];
          }
        }
      }
    }
  }

  /** The en-passant captures of the pawn on i onto the target square. */
  method AddPawnEnpassants(state: GameState, i: int, moves: seq<Move>) returns (r: seq<Move>)
    requires state.Valid() && OnBoard(i) && state.enpassant != "-"
    ensures r == moves + PawnEnpassants(state.Snapshot(), i, Sides)
  {
    ghost var p := state.Snapshot();
    var pc := state.board[i];
    assert state.enpassant[..2] == state.enpassant;
    var epIdx := SqToCoords(state.enpassant);
    r := moves;
    for k := 0 to 2
      invariant r == moves + PawnEnpassants(p, i, Sides[..k])
    {
      PawnEnpassantsSnoc(p, i, Sides, k);
      var df := Sides[k];
      if FileOf(i) + df == FileOf(epIdx) && RankOf(epIdx) == RankOf(i) + (if IsUpper(pc) then -1 else 1) {
        var m := state.MakeMoveStruct(i, epIdx, None);
        r := r + [m];
      }
    }
    assert Sides[..2] == Sides;
  }

  /** generate_pawn_moves: forward moves, then the captures to the left and
      right, then the en-passant captures when there is a target. */
  method GeneratePawnMoves(state: GameState, i: int, moves: seq<Move>) returns (r: seq<Move>)
    requires state.Valid() && OnBoard(i)
    ensures r == moves + PawnMoves(state.Snapshot(), i)
  {
    ghost var p := state.Snapshot();
    r := AddPawnPushes(state, i, moves);
    ghost var pushed := r;
    r := AddPawnCaptures(state, i, r);
    ghost var captured := r;
    if state.enpassant != "-" {
      r := AddPawnEnpassants(state, i, r);
    }
    assert state.Snapshot() == p;
    PawnMovesAppend(p, i, moves, pushed, captured, r);
  }

  lemma PawnMovesAppend(p: Position, i: int, moves: seq<Move>, pushed: seq<Move>, captured: seq<Move>, r: seq<Move>)
    requires WellFormed(p) && OnBoard(i)
    requires pushed == moves + PawnPushes(p, i)
    requires captured == pushed + PawnCaptures(p, i, Sides)
    requires r == captured + (if p.enpassant == "-" then [] else PawnEnpassants(p, i, Sides))
    ensures r == moves + PawnMoves(p, i)
  {
  }

  /** The loop shared by the knight and the king: every offset that stays
      on the board, at most `reach` files away, onto a square the mover may
      land on. */
  method AddLeaps(state: GameState, i: int, offs: seq<int>, reach: int, moves: seq<Move>) returns (r: seq<Move>)
    requires state.Valid() && OnBoard(i)
    ensures r == moves + Leaps(state.Snapshot(), i, offs, reach)
  {
    ghost var p := state.Snapshot();
    var pc := state.board[i];
    r := moves;
    for k := 0 to |offs|
      invariant r == moves + Leaps(p, i, offs[..k], reach)
    {
      LeapsSnoc(p, i, offs, reach, k);
      var to := i + offs[k];
      if OnBoard(to) && Abs(FileOf(i) - FileOf(to)) <= reach {
        var target := state.board[to];
        if target == '.' || ColorOf(target) != ColorOf(pc) {
          var m := state.MakeMoveStruct(i, to, None);
          r := r + [m];
        }
      }
    }
    assert offs[..|offs|] == offs;
  }

  /** generate_knight_moves. */
  method GenerateKnightMoves(state: GameState, i: int, moves: seq<Move>) returns (r: seq<Move>)
    requires state.Valid() && OnBoard(i)
    ensures r == moves + Leaps(state.Snapshot(), i, KnightOffsets, 2)
  {
    r := AddLeaps(state, i, KnightOffsets, 2, moves);
  }

  /** One ray of generate_sliding_moves: walk from i + d while the step
      stays on the board without wrapping, adding empty squares and the
      first occupied one when it holds an enemy. */
  method AddRay(state: GameState, i: int, d: int, moves: seq<Move>) returns (r: seq<Move>)
    requires state.Valid() && OnBoard(i) && d != 0
    ensures r == moves + Ray(state.Snapshot(), i, d, i + d)
  {
    ghost var p := state.Snapshot();
    var pc := state.board[i];
    r := moves;
    var to := i + d;
    while OnBoard(to) && Abs(FileOf(to) - FileOf(to - d)) <= 1
      invariant moves + Ray(p, i, d, i + d) == r + Ray(p, i, d, to)
      decreases if d > 0 then 64 - to else to
    {
      var target := state.board[to];
      if target == '.' {
        var m := state.MakeMoveStruct(i, to, None);
        r := r + [m];
      } else {
        if ColorOf(target) != ColorOf(pc) {
          var m := state.MakeMoveStruct(i, to, None);
          r := r + [m];
        }
        break;
      }
      to := to + d;
    }
  }

  /** generate_sliding_moves: the rays in the directions `dirs`, in order. */
  method GenerateSlidingMoves(state: GameState, i: int, dirs: seq<int>, moves: seq<Move>) returns (r: seq<Move>)
    requires state.Valid() && OnBoard(i) && 0 !in dirs
    ensures r == moves + Slides(state.Snapshot(), i, dirs)
  {
    ghost var p := state.Snapshot();
    r := moves;
    for k := 0 to |dirs|
      invariant 0 !in dirs[..k]
      invariant r == moves + Slides(p, i, dirs[..k])
    {
      SlidesSnoc(p, i, dirs, k);
      r := AddRay(state, i, dirs[k], r);
    }
    assert dirs[..|dirs|] == dirs;
  }

  /** generate_king_moves: the one-step leaps, then castling. */
  method GenerateKingMoves(state: GameState, i: int, moves: seq<Move>) returns (r: seq<Move>)
    requires state.Valid() && OnBoard(i)
    ensures r == moves + Leaps(state.Snapshot(), i, KingOffsets, 1) + CastleMoves(state.Snapshot(), i)
  {
    r := AddLeaps(state, i, KingOffsets, 1, moves);
    r := AddCastling(state, i, r);
  }

  /** The castling part of generate_king_moves: king side, then queen
      side, each when the right letter is present and the squares between
      king and rook are empty. The branch is taken only from the king's
      home square (the generator as written takes it from any square). */
  method AddCastling(state: GameState, i: int, moves: seq<Move>) returns (r: seq<Move>)
    requires state.Valid() && OnBoard(i)
    ensures r == moves + CastleMoves(state.Snapshot(), i)
  {
    ghost var p := state.Snapshot();
    var targets := CastlingTargets(state, i);
    r := moves;
    for k := 0 to |targets|
      invariant r == moves + MovesTo(p, i, targets[..k])
    {
      var m := state.MakeMoveStruct(i, targets[k], None);
      assert targets[..k + 1][..k] == targets[..k];
      r := r + [m];
    }
    assert targets[..|targets|] == targets;
  }

  /** The squares the castling part sends the king on i to. */
  method CastlingTargets(state: GameState, i: int) returns (targets: seq<int>)
    requires state.Valid() && OnBoard(i)
    ensures targets == if i == KingHome(state.board[i]) then CastleTargets(state.Snapshot(), i) else []
  {
    var pc := state.board[i];
    targets := [];
    if IsUpper(pc) && state.activeColor == "w" && i == 60 {
      if 'K' in state.castling && state.board[61] == '.' && state.board[62] == '.' {
        targets := targets + [i + 2];
      }
      if 'Q' in state.castling && state.board[59] == '.' && state.board[58] == '.' && state.board[57] == '.' {
        targets := targets + [i - 2];
      }
    }
    if IsLower(pc) && state.activeColor == "b" && i == 4 {
      if 'k' in state.castling && state.board[5] == '.' && state.board[6] == '.' {
        targets := targets + [i + 2];
      }
      if 'q' in state.castling && state.board[3] == '.' && state.board[2] == '.' && state.board[1] == '.' {
        targets := targets + [i - 2];
      }
    }
  }

  /** The moves of the piece on i, by kind (the dispatch of
      generate_pseudo_legal_moves). */
  method GeneratePieceMoves(state: GameState, i: int, moves: seq<Move>) returns (r: seq<Move>)
    requires state.Valid() && OnBoard(i)
    ensures r == moves + PieceMoves(state.Snapshot(), i)
  {
    var kind := Upper(state.board[i]);
    if kind == 'P' {
      r := GeneratePawnMoves(state, i, moves);
    } else if kind == 'N' {
      r := GenerateKnightMoves(state, i, moves);
    } else if kind == 'B' {
      r := GenerateSlidingMoves(state, i, BishopDirs, moves);
    } else if kind == 'R' {
      r := GenerateSlidingMoves(state, i, RookDirs, moves);
    } else if kind == 'Q' {
      r := GenerateSlidingMoves(state, i, QueenDirs, moves);
    } else if kind == 'K' {
      r := GenerateKingMoves(state, i, moves);
    } else {
      r := moves;
    }
  }

  /** generate_pseudo_legal_moves: every square in board order, skipping
      empty squares and pieces of the side not to move. */
  method GeneratePseudoLegalMoves(state: GameState) returns (moves: seq<Move>)
    requires state.Valid()
    ensures moves == PseudoLegal(state.Snapshot())
  {
    ghost var p := state.Snapshot();
    ghost var all := AllSquares();
    var me := state.activeColor;
    moves := [];
    for i := 0 to 64
      invariant moves == SquaresMoves(p, all[..i])
    {
      SquaresMovesSnoc(p, all, i);
      var pc := state.board[i];
      if pc != '.' && !((me == "w" && IsLower(pc)) || (me == "b" && IsUpper(pc))) {
        moves := GeneratePieceMoves(state, i, moves);
      }
    }
    assert all[..64] == all;
  }
}
