/** filter_legal_moves: keep the pseudo-legal moves after which the king
    of the side that moved is on the board and not attacked. Each move is
    pushed on the game state, the king looked up, the square tested with
    is_square_attacked, and the move popped again. */
module Legality {
  import opened Common
  import opened Squares
  import opened Pieces
  import opened Positions
  import opened State
  import opened Movegen
  import opened MoveFacts
  import opened Attacks
  import opened CheckFacts
  import opened MoveShapes

  // ---------------------------------------------------------------------
  // Specification

  /** The first square from k on that holds `c`, scanning from a8. */
  function FirstFrom(b: seq<char>, c: char, k: nat): (r: Option<int>)
    requires |b| == 64 && k <= 64
    ensures r.Some? ==> k <= r.value < 64 && b[r.value] == c
    ensures r.Some? ==> forall j :: k <= j < r.value ==> b[j] != c
    ensures r.None? ==> forall j :: k <= j < 64 ==> b[j] != c
    decreases 64 - k
  {
    if k == 64 then None else if b[k] == c then Some(k) else FirstFrom(b, c, k + 1)
  }

  /** The square of the first `king` on the board, if any. */
  function KingSquare(b: seq<char>, king: char): Option<int>
    requires |b| == 64
  {
    FirstFrom(b, king, 0)
  }

  /** After a push, the king of the side that has just moved: the side
      not to move in q. */
  function MovedKing(q: Position): char {
    if q.activeColor == "b" then 'K' else 'k'
  }

  /** A move the engine can push and pop back exactly: generated on p,
      well formed, with the en-passant victim and the castling rook where
      the move says. */
  predicate Undoable(p: Position, m: Move)
    requires WellFormed(p)
  {
    && WellFormedMove(m)
    && m == MakeMove(p, m.fromSq, m.toSq, m.promotion)
    && Restorable(p, m)
  }

  /** The legality test for one move: after it, the mover's king is on the
      board and the side to move does not attack it. */
  predicate KingSafeAfter(p: Position, m: Move)
    requires WellFormed(p) && InRange(m)
  {
    var q := Apply(p, m);
    var ks := KingSquare(q.board, MovedKing(q));
    ks.Some? && !Attacked(q.board, ks.value, q.activeColor)
  }

  /** filter_legal_moves on values: the moves that pass the test, in their
      original order. */
  function LegalFilter(p: Position, moves: seq<Move>): seq<Move>
    requires WellFormed(p) && forall m <- moves :: Undoable(p, m)
  {
    if moves == [] then []
    else
      var rest := LegalFilter(p, moves[..|moves| - 1]);
      var m := moves[|moves| - 1];
      assert Undoable(p, m) by { assert m in moves; }
      if KingSafeAfter(p, m) then rest + [m] else rest
  }

  /** a is b with some elements left out, the rest in their order. */
  predicate Subsequence(a: seq<Move>, b: seq<Move>)
    decreases |b|
  {
    a == [] || (b != [] && ((a[0] == b[0] && Subsequence(a[1..], b[1..])) || Subsequence(a, b[1..])))
  }

  /** Every candidate is well formed. */
  predicate WellFormedMoves(moves: seq<Move>) {
    forall i :: 0 <= i < |moves| ==> WellFormedMove(moves[i])
  }

  /** The position pop_move leaves after push_move(m) on p. */
  function PushPop(p: Position, m: Move): (q: Position)
    requires WellFormed(p) && WellFormedMove(m)
    ensures WellFormed(q)
    ensures Undoable(p, m) ==> q == p
  {
    ApplyWellFormed(p, m);
    UndoWellFormed(Apply(p, m), m);
    if Undoable(p, m) then UndoApply(p, m); Undo(Apply(p, m), m)
    else Undo(Apply(p, m), m)
  }

  /** filter_legal_moves as written: each candidate is tested on the
      position the push and pop of the one before it left behind. The
      result is the kept moves and that last position. */
  function FilterThread(p: Position, moves: seq<Move>): (r: (seq<Move>, Position))
    requires WellFormed(p) && WellFormedMoves(moves)
    ensures WellFormed(r.1)
    decreases |moves|
  {
    if moves == [] then ([], p)
    else
      var m := moves[0];
      var next := FilterThread(PushPop(p, m), moves[1..]);
      (if KingSafeAfter(p, m) then [m] + next.0 else next.0, next.1)
  }

  // ---------------------------------------------------------------------
  // Properties of the filter

  /** Every sound move of a consistent position can be pushed and popped. */
  lemma SoundUndoable(p: Position, m: Move)
    requires Consistent(p) && Sound(p, m)
    ensures Undoable(p, m)
  {
    SoundRestorable(p, m);
  }

  /** A move is kept exactly when it is one of the input moves and passes
      the king-safety test. */
  lemma {:induction false} LegalFilterMembers(p: Position, moves: seq<Move>, m: Move)
    requires WellFormed(p) && forall x <- moves :: Undoable(p, x)
    ensures m in LegalFilter(p, moves) <==> m in moves && KingSafeAfter(p, m)
  {
    if moves != [] {
      var init := moves[..|moves| - 1];
      assert moves == init + [moves[|moves| - 1]];
      LegalFilterMembers(p, init, m);
    }
  }

  /** The filter keeps the order of the moves: filtering a concatenation
      is concatenating the filtered parts. */
  lemma {:induction false} LegalFilterAppend(p: Position, xs: seq<Move>, ys: seq<Move>)
    requires WellFormed(p) && (forall x <- xs :: Undoable(p, x)) && (forall y <- ys :: Undoable(p, y))
    ensures LegalFilter(p, xs + ys) == LegalFilter(p, xs) + LegalFilter(p, ys)
  {
    if ys == [] {
      assert xs + ys == xs;
    } else {
      var init := ys[..|ys| - 1];
      assert (xs + ys)[..|xs + ys| - 1] == xs + init;
      assert (xs + ys)[|xs + ys| - 1] == ys[|ys| - 1];
      LegalFilterAppend(p, xs, init);
    }
  }

  /** Filtering twice keeps the same moves as filtering once. */
  lemma {:induction false} LegalFilterIdempotent(p: Position, moves: seq<Move>)
    requires WellFormed(p) && forall m <- moves :: Undoable(p, m)
    ensures forall m <- LegalFilter(p, moves) :: Undoable(p, m)
    ensures LegalFilter(p, LegalFilter(p, moves)) == LegalFilter(p, moves)
  {
    if moves != [] {
      var init := moves[..|moves| - 1];
      var m := moves[|moves| - 1];
      LegalFilterIdempotent(p, init);
      var rest := LegalFilter(p, init);
      assert Undoable(p, m) by { assert m in moves; }
      if KingSafeAfter(p, m) {
        LegalFilterAppend(p, rest, [m]);
        assert LegalFilter(p, [m]) == [m] by {
          assert [m][..0] == [];
        }
      }
    }
  }

  /** The legality test through the generators: after a sound move, the
      mover's king stands on the board and no pseudo-legal reply of the
      opponent lands on its square. */
  lemma KingSafeIffNoCapture(p: Position, m: Move)
    requires Consistent(p) && Sound(p, m)
    ensures Undoable(p, m)
    ensures var q := Apply(p, m);
      var ks := KingSquare(q.board, MovedKing(q));
      KingSafeAfter(p, m) <==> ks.Some? && forall r <- PseudoLegal(q) :: r.toSq != ks.value
  {
    SoundUndoable(p, m);
    SoundApply(p, m);
    var q := Apply(p, m);
    var ks := KingSquare(q.board, MovedKing(q));
    if ks.Some? {
      assert ColorOf(MovedKing(q)) == Some(Opponent(q.activeColor));
      assert Target(q, ks.value);
      AttackedIffCapture(q, ks.value);
    }
  }

  /** The filter as written keeps only candidates, in their order, no
      more of them than it was given. */
  lemma {:induction false} FilterThreadKeeps(p: Position, moves: seq<Move>)
    requires WellFormed(p) && WellFormedMoves(moves)
    ensures Subsequence(FilterThread(p, moves).0, moves)
    ensures |FilterThread(p, moves).0| <= |moves|
    ensures forall m <- FilterThread(p, moves).0 :: m in moves
    decreases |moves|
  {
    if moves != [] {
      FilterThreadCons(p, moves);
      var rest := moves[1..];
      var next := FilterThread(PushPop(p, moves[0]), rest);
      FilterThreadKeeps(PushPop(p, moves[0]), rest);
      assert forall x <- rest :: x in moves;
      if KingSafeAfter(p, moves[0]) {
        var kept := [moves[0]] + next.0;
        assert kept[1..] == next.0;
        assert Subsequence(kept, moves);
      } else {
        assert [] + next.0 == next.0;
        assert Subsequence(next.0, moves);
      }
    }
  }

  /** One step of the filter as written: test the first candidate, then
      go on from the position its push and pop left. */
  lemma {:induction false} FilterThreadCons(p: Position, moves: seq<Move>)
    requires WellFormed(p) && moves != [] && WellFormedMoves(moves)
    ensures var next := FilterThread(PushPop(p, moves[0]), moves[1..]);
      FilterThread(p, moves) == ((if KingSafeAfter(p, moves[0]) then [moves[0]] else []) + next.0, next.1)
  {
    var m := moves[0];
    var q := PushPop(p, m);
    var next := FilterThread(q, moves[1..]);
    if KingSafeAfter(p, m) {
      assert FilterThread(p, moves) == ([m] + next.0, next.1);
    } else {
      assert FilterThread(p, moves) == (next.0, next.1);
      assert [] + next.0 == next.0;
    }
  }

  /** FilterThreadCons at the suffix from k. */
  lemma {:induction false} FilterThreadAt(cur: Position, moves: seq<Move>, k: nat)
    requires WellFormed(cur) && k < |moves| && WellFormedMoves(moves[k..])
    ensures WellFormedMove(moves[k]) && WellFormedMoves(moves[k + 1..])
    ensures var next := FilterThread(PushPop(cur, moves[k]), moves[k + 1..]);
      FilterThread(cur, moves[k..]) == ((if KingSafeAfter(cur, moves[k]) then [moves[k]] else []) + next.0, next.1)
  {
    var tail := moves[k..];
    assert tail[0] == moves[k] && tail[1..] == moves[k + 1..];
    FilterThreadCons(cur, tail);
  }

  /** Candidates that all pop back exactly: the first, the rest, and
      each of them well formed. */
  lemma {:induction false} UndoableParts(p: Position, moves: seq<Move>)
    requires WellFormed(p) && moves != [] && forall m <- moves :: Undoable(p, m)
    ensures Undoable(p, moves[0])
    ensures forall x <- moves[1..] :: Undoable(p, x)
    ensures WellFormedMoves(moves)
  {
    assert moves[0] in moves;
    forall x <- moves[1..] ensures Undoable(p, x) {
      assert x in moves;
    }
    forall i | 0 <= i < |moves| ensures WellFormedMove(moves[i]) {
      assert moves[i] in moves;
    }
  }

  /** When every candidate pops back exactly, the filter as written is
      LegalFilter and the position comes back unchanged. */
  lemma {:induction false} FilterThreadRestorable(p: Position, moves: seq<Move>)
    requires WellFormed(p) && forall m <- moves :: Undoable(p, m)
    ensures WellFormedMoves(moves)
    ensures FilterThread(p, moves) == (LegalFilter(p, moves), p)
    decreases |moves|
  {
    if moves != [] {
      var m := moves[0];
      var rest := moves[1..];
      UndoableParts(p, moves);
      FilterThreadRestorable(p, rest);
      var next := FilterThread(PushPop(p, m), rest);
      assert next == (LegalFilter(p, rest), p);
      FilterThreadCons(p, moves);
      LegalFilterFront(p, moves);
    }
  }

  /** LegalFilter's first step, taken from the front. */
  lemma {:induction false} LegalFilterFront(p: Position, moves: seq<Move>)
    requires WellFormed(p) && moves != [] && forall m <- moves :: Undoable(p, m)
    ensures Undoable(p, moves[0]) && forall m <- moves[1..] :: Undoable(p, m)
    ensures LegalFilter(p, moves) == (if KingSafeAfter(p, moves[0]) then [moves[0]] else []) + LegalFilter(p, moves[1..])
  {
    var m := moves[0];
    var rest := moves[1..];
    assert m in moves;
    assert forall x <- rest :: x in moves;
    assert moves == [m] + rest;
    LegalFilterAppend(p, [m], rest);
    assert [m][..0] == [];
    if KingSafeAfter(p, m) {
      assert LegalFilter(p, [m]) == [m];
    } else {
      assert LegalFilter(p, [m]) == [];
      assert [] + LegalFilter(p, rest) == LegalFilter(p, rest);
    }
  }


  /** The off-home castle the generator as written offers does not pop
      back: filtering it alone leaves the position without its king. */
  lemma {:induction false} FilterOffHomeCastle()
    ensures var p := Position(seq(64, k => if k == 59 then 'K' else if k == 4 then 'k' else '.'), "w", "K", "-", 0, 1);
      && WellFormed(p)
      && var m := MakeMove(p, 59, 61, None);
      && WellFormedMove(m) && !Undoable(p, m)
      && FilterThread(p, [m]).1.board == p.board[59 := '.']
      && KingSquare(FilterThread(p, [m]).1.board, 'K').None?
  {
    CastleOffHomeErasesKing();
    var p := Position(seq(64, k => if k == 59 then 'K' else if k == 4 then 'k' else '.'), "w", "K", "-", 0, 1);
    var m := MakeMove(p, 59, 61, None);
    assert IsPiece(m.piece) && IsCell(m.captured);
    assert ValidCastling(m.prevCastling) && ValidEnpassant(m.prevEnpassant);
    assert [m][1..] == [];
    assert !Undoable(p, m);
    assert FilterThread(p, [m]).1 == PushPop(p, m) == Undo(Apply(p, m), m);
    var b := FilterThread(p, [m]).1.board;
    assert forall j :: 0 <= j < 64 ==> b[j] != 'K';
  }

  // ---------------------------------------------------------------------
  // The engine's loops

  /** The king search of filter_legal_moves: the first square holding
      `king`. */
  method FindKing(state: GameState, king: char) returns (r: Option<int>)
    requires state.Valid()
    ensures r == KingSquare(state.board[..], king)
  {
    for i := 0 to 64
      invariant forall j :: 0 <= j < i ==> state.board[j] != king
    {
      if state.board[i] == king {
        return Some(i);
      }
    }
    return None;
  }

  /** One step of filter_legal_moves: push, look for the king, test it,
      pop. The game state comes back as it was. */
  method IsKingSafeAfter(state: GameState, m: Move) returns (ok: bool)
    modifies state, state.board
    requires state.Valid() && WellFormedMove(m)
    ensures state.Valid() && state.Snapshot() == PushPop(old(state.Snapshot()), m)
    ensures state.history == old(state.history)
    ensures ok == KingSafeAfter(old(state.Snapshot()), m)
  {
    ghost var p := state.Snapshot();
    state.PushMove(m);
    var king := if state.activeColor == "b" then 'K' else 'k';
    var kingSq := FindKing(state, king);
    if kingSq.None? {
      ok := false;
    } else {
      var attacked := IsSquareAttacked(state, kingSq.value, state.activeColor);
      ok := !attacked;
    }
    state.PopMove();
  }


  /** filter_legal_moves: the moves that leave the mover's king safe, in
      order, each tested on the position the previous push and pop left.
      With moves that pop back exactly (FilterThreadRestorable) that is
      LegalFilter, and the position comes back as it was. */
  method FilterLegalMoves(state: GameState, moves: seq<Move>) returns (legal: seq<Move>)
    modifies state, state.board
    requires state.Valid() && WellFormedMoves(moves)
    ensures state.Valid() && state.Snapshot() == FilterThread(old(state.Snapshot()), moves).1
    ensures state.history == old(state.history)
    ensures legal == FilterThread(old(state.Snapshot()), moves).0
  {
    ghost var p := state.Snapshot();
    ghost var cur := p;
    legal := [];
    for k := 0 to |moves|
      invariant state.Valid() && state.history == old(state.history)
      invariant state.Snapshot() == cur && WellFormed(cur)
      invariant WellFormedMoves(moves[k..])
      invariant FilterThread(p, moves).0 == legal + FilterThread(cur, moves[k..]).0
      invariant FilterThread(p, moves).1 == FilterThread(cur, moves[k..]).1
    {
      FilterThreadAt(cur, moves, k);
      ghost var next := FilterThread(PushPop(cur, moves[k]), moves[k + 1..]);
      var ok := IsKingSafeAfter(state, moves[k]);
      if ok {
        assert legal + ([moves[k]] + next.0) == (legal + [moves[k]]) + next.0;
        legal := legal + [moves[k]];
      } else {
        assert [] + next.0 == next.0;
      }
      cur := PushPop(cur, moves[k]);
    }
    assert moves[|moves|..] == [];
  }


}
