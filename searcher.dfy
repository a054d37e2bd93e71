/** The engine's search over the mutable GameState: quiescence, and the
    Searcher class with order_moves, alphabeta, alphabeta_root and search.
    Each method pushes and pops moves on the state, hands it back as it
    found it, and computes exactly the search on values of the Search
    module with the engine's own ingredients. */
module Searching {
  import opened Common
  import opened Squares
  import opened Positions
  import opened State
  import opened Zobrist
  import opened MoveFacts
  import opened Attacks
  import opened Legality
  import opened Evaluation
  import opened Ordering
  import opened Generators
  import opened Search

  /** The mate-or-stalemate branch of alphabeta: look for the king of the
      side to move and test whether the opponent attacks it. */
  method ScoreNoMoves(state: GameState, depth: nat) returns (score: int)
    requires state.Valid()
    ensures score == NoMovesScore(state.Snapshot(), depth)
  {
    var king := if state.activeColor == "w" then 'K' else 'k';
    var kingSq := FindKing(state, king);
    if kingSq.None? {
      return -INF + (100 - depth);
    }
    var attacked := IsSquareAttacked(state, kingSq.value, if state.activeColor == "w" then "b" else "w");
    score := if attacked then -INF + (100 - depth) else 0;
  }

  /** filter_legal_moves(state, generate_pseudo_legal_moves(state)), as
      alphabeta and alphabeta_root start. */
  method LegalMoveList(state: GameState) returns (legal: seq<Move>)
    modifies state, state.board
    requires state.Valid() && Consistent(state.Snapshot())
    ensures state.Valid() && state.Snapshot() == old(state.Snapshot())
    ensures state.history == old(state.history)
    ensures legal == LegalMoves(old(state.Snapshot()))
  {
    ghost var p := state.Snapshot();
    var pseudo := GeneratePseudoLegalMoves(state);
    PseudoLegalUndoable(p);
    FilterThreadRestorable(p, pseudo);
    legal := FilterLegalMoves(state, pseudo);
  }

  /** The captures of quiescence: the pseudo-legal captures, filtered for
      legality and sorted by descending material gain. */
  method LegalCaptureList(state: GameState) returns (moves: seq<Move>)
    modifies state, state.board
    requires state.Valid() && Consistent(state.Snapshot())
    ensures state.Valid() && state.Snapshot() == old(state.Snapshot())
    ensures state.history == old(state.history)
    ensures moves == QuiescenceMoves(old(state.Snapshot()))
  {
    ghost var p := state.Snapshot();
    var pseudo := GeneratePseudoLegalMoves(state);
    PseudoLegalUndoable(p);
    FilterThreadRestorable(p, Captures(pseudo));
    var legal := FilterLegalMoves(state, Captures(pseudo));
    moves := CaptureOrder(legal);
  }

  // ---------------------------------------------------------------------
  // The engine's ingredients

  /** At q the ingredients are the engine's own: its Zobrist hash, its
      evaluation, its ordered legal moves and its ordered captures. */
  ghost predicate EngineAt(o: Ingredients, keys: KeyTable, q: Position) {
    && o.hash(q) == Zob(keys)(q)
    && o.eval(q.board) == Eval(q.board)
    && o.moves(q) == OrderedMoves(q)
    && o.captures(q) == OrderedCaptures(q)
  }

  /** The ingredients are the engine's at every position. The methods take
      them as a ghost parameter and look at them one position at a time. */
  ghost predicate IsEngine(o: Ingredients, keys: KeyTable) {
    forall q {:trigger EngineAt(o, keys, q)} :: EngineAt(o, keys, q)
  }

  /** The engine built from the key table is the engine. */
  lemma EngineIsEngine(keys: KeyTable)
    ensures IsEngine(Engine(keys), keys)
  {
  }

  // ---------------------------------------------------------------------
  // quiescence

  /** quiescence: stand pat, then every legal capture, most profitable
      first, searched with the window negated, failing hard at beta. */
  method Quiescence(state: GameState, ghost o: Ingredients, alpha: int, beta: int) returns (score: int)
    modifies state, state.board
    requires state.Valid() && Consistent(state.Snapshot()) && IsEngine(o, state.keys)
    ensures state.Valid() && state.Snapshot() == old(state.Snapshot())
    ensures state.history == old(state.history)
    ensures score == QSearch(o, old(state.Snapshot()), alpha, beta)
    decreases Occupied(state.Snapshot().board), 3
  {
    ghost var p := state.Snapshot();
    assert EngineAt(o, state.keys, p);
    var standPat := Evaluate(state);
    if standPat >= beta {
      return beta;
    }
    var a := if standPat > alpha then standPat else alpha;
    var moves := LegalCaptureList(state);
    QuiescenceMovesSound(p);
    CaptureChildrenFrom(p, moves);
    score := QuiescenceLoop(state, o, moves, a, beta);
  }

  /** The capture loop of quiescence: each capture searched in turn,
      raising alpha, and beta returned as soon as a reply reaches it. */
  method QuiescenceLoop(state: GameState, ghost o: Ingredients, moves: seq<Move>, alpha: int, beta: int)
    returns (score: int)
    modifies state, state.board
    requires state.Valid() && Consistent(state.Snapshot()) && IsEngine(o, state.keys)
    requires (forall m <- moves :: Sound(state.Snapshot(), m)) && CaptureChildren(state.Snapshot(), moves)
    ensures state.Valid() && state.Snapshot() == old(state.Snapshot())
    ensures state.history == old(state.history)
    ensures score == QLoop(o, old(state.Snapshot()), moves, alpha, beta)
    decreases Occupied(state.Snapshot().board), 2
  {
    ghost var p := state.Snapshot();
    var a := alpha;
    var k := 0;
    assert moves[0..] == moves;
    while k < |moves|
      invariant 0 <= k <= |moves|
      invariant state.Valid() && state.Snapshot() == p && state.history == old(state.history)
      invariant CaptureChildren(p, moves[k..])
      invariant QLoop(o, p, moves, alpha, beta) == QLoop(o, p, moves[k..], a, beta)
      decreases |moves| - k
    {
      var cut, a' := QuiescenceStep(state, o, p, moves, k, a, beta);
      if cut {
        return beta;
      }
      a := a';
      k := k + 1;
    }
    return a;
  }

  /** One turn of the capture loop: search the k-th capture, then either
      fail hard at beta or raise alpha. */
  method QuiescenceStep(state: GameState, ghost o: Ingredients, ghost p: Position, moves: seq<Move>, k: nat,
                        alpha: int, beta: int)
    returns (cut: bool, alpha': int)
    modifies state, state.board
    requires state.Valid() && state.Snapshot() == p && Consistent(p) && IsEngine(o, state.keys)
    requires k < |moves| && (forall m <- moves :: Sound(p, m)) && CaptureChildren(p, moves[k..])
    ensures state.Valid() && state.Snapshot() == p
    ensures state.history == old(state.history)
    ensures CaptureChildren(p, moves[k + 1..])
    ensures cut ==> QLoop(o, p, moves[k..], alpha, beta) == beta
    ensures !cut ==> QLoop(o, p, moves[k..], alpha, beta) == QLoop(o, p, moves[k + 1..], alpha', beta)
    decreases Occupied(p.board), 1
  {
    var s := QuiescenceChild(state, o, p, moves, k, -beta, -alpha);
    cut := -s >= beta;
    alpha' := if -s > alpha then -s else alpha;
    QLoopAt(o, p, moves, k, alpha, beta, -s, cut, alpha');
  }

  /** One turn of quiescence's loop: push the capture, search the reply,
      pop it. */
  method QuiescenceChild(state: GameState, ghost o: Ingredients, ghost p: Position, moves: seq<Move>, k: nat,
                         alpha: int, beta: int)
    returns (score: int)
    modifies state, state.board
    requires state.Valid() && state.Snapshot() == p && Consistent(p) && IsEngine(o, state.keys)
    requires k < |moves| && (forall m <- moves :: Sound(p, m)) && CaptureChildren(p, moves[k..])
    ensures state.Valid() && state.Snapshot() == p
    ensures state.history == old(state.history)
    ensures score == QSearch(o, Apply(p, moves[k]), alpha, beta)
    decreases Occupied(p.board), 0
  {
    var m := moves[k];
    CaptureAt(p, moves, k);
    state.PushMove(m);
    score := Quiescence(state, o, alpha, beta);
    state.PopMove();
  }

  /** class Searcher: the transposition table that alphabeta fills and
      consults across the iterations of a search. */
  class Searcher {
    var tt: Table

    /** Searcher(): an empty table. */
    constructor ()
      ensures tt == map[]
    {
      tt := map[];
    }

    /** order_moves: score each move (doubled, see MoveKey) and sort the
        pairs by descending score. */
    method OrderMoves(moves: seq<Move>) returns (ordered: seq<Move>)
      ensures ordered == MoveOrder(moves)
    {
      var scored: seq<Scored> := [];
      for k := 0 to |moves|
        invariant scored == Keyed(moves[..k], MoveKey)
      {
        var m := moves[k];
        var score := 0;
        if m.captured != '.' {
          score := score + 2 * (Abs(PieceValue(m.captured)) - Abs(PieceValue(m.piece)));
        }
        if m.promotion.Some? {
          score := score + 2 * 900;
        }
        var file := FileOf(m.toSq);
        var rank := RankOf(m.toSq);
        score := score - (Abs(2 * file - 7) + Abs(2 * rank - 7));
        scored := scored + [Scored(score, m)];
        assert scored == Keyed(moves[..k + 1], MoveKey);
      }
      assert moves[..|moves|] == moves;
      ordered := Strip(SortDesc(scored));
    }

    /** alphabeta: the table probe. An exact entry deep enough answers at
        once; a bound narrows the window, and a window that closes answers
        with the stored score. */
    method AlphaBeta(state: GameState, ghost o: Ingredients, depth: nat, alpha: int, beta: int) returns (score: int)
      modifies this, state, state.board
      requires state.Valid() && Consistent(state.Snapshot()) && IsEngine(o, state.keys)
      ensures state.Valid() && state.Snapshot() == old(state.Snapshot())
      ensures state.history == old(state.history)
      ensures Outcome(score, tt) == AB(o, old(state.Snapshot()), old(tt), depth, alpha, beta)
      decreases depth, 4
    {
      assert EngineAt(o, state.keys, state.Snapshot());
      var probe := ProbeTable(state.currentZobrist, depth, alpha, beta);
      if probe.Hit? {
        return probe.score;
      }
      score := SearchNode(state, o, depth, probe.alpha, probe.beta);
    }

    /** The transposition lookup at the head of alphabeta. */
    method ProbeTable(zob: nat, depth: nat, alpha: int, beta: int) returns (r: Probe)
      ensures r == TableProbe(tt, zob, depth, alpha, beta)
    {
      var a, b := alpha, beta;
      if zob in tt {
        var e := tt[zob];
        if e.depth >= depth {
          if e.flag == Exact {
            return Hit(e.score);
          } else if e.flag == LowerBound && e.score > a {
            a := e.score;
          } else if e.flag == UpperBound && e.score < b {
            b := e.score;
          }
          if a >= b {
            return Hit(e.score);
          }
        }
      }
      return Window(a, b);
    }

    /** alphabeta after the probe: quiescence at depth 0, mate or stalemate
        without legal moves, otherwise the ordered moves searched in turn
        and the result stored under the position's hash with its flag. */
    method SearchNode(state: GameState, ghost o: Ingredients, depth: nat, alpha: int, beta: int) returns (score: int)
      modifies this, state, state.board
      requires state.Valid() && Consistent(state.Snapshot()) && IsEngine(o, state.keys)
      ensures state.Valid() && state.Snapshot() == old(state.Snapshot())
      ensures state.history == old(state.history)
      ensures Outcome(score, tt) == ABSearch(o, old(state.Snapshot()), old(tt), depth, alpha, beta)
      decreases depth, 3
    {
      ghost var p := state.Snapshot();
      assert EngineAt(o, state.keys, p);
      if depth == 0 {
        score := Quiescence(state, o, alpha, beta);
        return;
      }
      var legal := LegalMoveList(state);
      EngineMoves(p);
      if legal == [] {
        score := ScoreNoMoves(state, depth);
        return;
      }
      var moves := OrderMoves(legal);
      OrderedSound(p);
      ChildrenFrom(p, moves);
      var best, bestMove := MoveLoop(state, o, depth, moves, alpha, beta);
      var flag := Exact;
      if best <= alpha {
        flag := UpperBound;
      }
      if best >= beta {
        flag := LowerBound;
      }
      tt := tt[state.currentZobrist := Entry(depth, best, flag, bestMove)];
      score := best;
    }

    /** The move loop of alphabeta: each move searched one ply shallower
        with the window negated, the best score and move kept, alpha
        raised, and the loop left once alpha reaches beta. */
    method MoveLoop(state: GameState, ghost o: Ingredients, depth: nat, moves: seq<Move>, alpha: int, beta: int)
      returns (best: int, bestMove: Option<Move>)
      modifies this, state, state.board
      requires state.Valid() && Consistent(state.Snapshot()) && IsEngine(o, state.keys) && depth >= 1
      requires (forall m <- moves :: Sound(state.Snapshot(), m)) && Children(state.Snapshot(), moves)
      ensures state.Valid() && state.Snapshot() == old(state.Snapshot())
      ensures state.history == old(state.history)
      ensures LoopResult(best, bestMove, tt) == ABLoop(o, old(state.Snapshot()), old(tt), depth, moves, alpha, beta, -INF, None)
      decreases depth, 2
    {
      ghost var p := state.Snapshot();
      ghost var tt0 := tt;
      best := -INF;
      bestMove := None;
      var a := alpha;
      var k := 0;
      assert moves[0..] == moves;
      while k < |moves|
        invariant 0 <= k <= |moves|
        invariant state.Valid() && state.Snapshot() == p && state.history == old(state.history)
        invariant Children(p, moves[k..])
        invariant ABLoop(o, p, tt0, depth, moves, alpha, beta, -INF, None) ==
          ABLoop(o, p, tt, depth, moves[k..], a, beta, best, bestMove)
        decreases |moves| - k
      {
        var cut;
        cut, a, best, bestMove := MoveStep(state, o, p, depth, moves, k, a, beta, best, bestMove);
        if cut {
          return;
        }
        k := k + 1;
      }
    }

    /** One turn of alphabeta's move loop: search the k-th move, keep it if
        it is the best so far, raise alpha, and report a cut-off once alpha
        reaches beta. */
    method MoveStep(state: GameState, ghost o: Ingredients, ghost p: Position, depth: nat, moves: seq<Move>, k: nat,
                    alpha: int, beta: int, best: int, bestMove: Option<Move>)
      returns (cut: bool, alpha': int, best': int, bestMove': Option<Move>)
      modifies this, state, state.board
      requires state.Valid() && state.Snapshot() == p && Consistent(p) && IsEngine(o, state.keys) && depth >= 1
      requires k < |moves| && (forall m <- moves :: Sound(p, m)) && Children(p, moves[k..])
      ensures state.Valid() && state.Snapshot() == p
      ensures state.history == old(state.history)
      ensures Children(p, moves[k + 1..])
      ensures cut ==> (ABLoop(o, p, old(tt), depth, moves[k..], alpha, beta, best, bestMove) ==
        LoopResult(best', bestMove', tt))
      ensures !cut ==> (ABLoop(o, p, old(tt), depth, moves[k..], alpha, beta, best, bestMove) ==
        ABLoop(o, p, tt, depth, moves[k + 1..], alpha', beta, best', bestMove'))
      decreases depth, 1
    {
      var m := moves[k];
      ghost var before := tt;
      var s := SearchChild(state, o, p, moves, k, depth, -beta, -alpha);
      best' := if -s > best then -s else best;
      bestMove' := if -s > best then Some(m) else bestMove;
      alpha' := if -s > alpha then -s else alpha;
      cut := alpha' >= beta;
      ABLoopAt(o, p, before, depth, moves, k, alpha, beta, best, bestMove, Outcome(s, tt), cut, alpha', best', bestMove');
    }

    /** One turn of a move loop: push the move, search the reply one ply
        shallower, pop it. */
    method SearchChild(state: GameState, ghost o: Ingredients, ghost p: Position, moves: seq<Move>, k: nat,
                       depth: nat, alpha: int, beta: int)
      returns (score: int)
      modifies this, state, state.board
      requires state.Valid() && state.Snapshot() == p && Consistent(p) && IsEngine(o, state.keys) && depth >= 1
      requires k < |moves| && (forall m <- moves :: Sound(p, m)) && Children(p, moves[k..])
      ensures state.Valid() && state.Snapshot() == p
      ensures state.history == old(state.history)
      ensures Outcome(score, tt) == AB(o, Apply(p, moves[k]), old(tt), depth - 1, alpha, beta)
      decreases depth, 0
    {
      var m := moves[k];
      ChildAt(p, moves, k);
      state.PushMove(m);
      score := AlphaBeta(state, o, depth - 1, alpha, beta);
      state.PopMove();
    }

    /** alphabeta_root: the ordered legal moves searched with the full
        window, keeping the first move that raises alpha. */
    method AlphaBetaRoot(state: GameState, ghost o: Ingredients, depth: nat) returns (score: int, bestMove: Option<Move>)
      modifies this, state, state.board
      requires state.Valid() && Consistent(state.Snapshot()) && IsEngine(o, state.keys) && depth >= 1
      ensures state.Valid() && state.Snapshot() == old(state.Snapshot())
      ensures state.history == old(state.history)
      ensures RootResult(score, bestMove, tt) == Root(o, old(state.Snapshot()), old(tt), depth)
    {
      ghost var p := state.Snapshot();
      assert EngineAt(o, state.keys, p);
      var legal := LegalMoveList(state);
      var moves := OrderMoves(legal);
      OrderedSound(p);
      ChildrenFrom(p, moves);
      score, bestMove := RootMoves(state, o, depth, moves);
    }

    /** The move loop of alphabeta_root: alpha starts at -INF, beta stays
        at INF, and a move becomes the best move when it raises alpha. */
    method RootMoves(state: GameState, ghost o: Ingredients, depth: nat, moves: seq<Move>)
      returns (score: int, bestMove: Option<Move>)
      modifies this, state, state.board
      requires state.Valid() && Consistent(state.Snapshot()) && IsEngine(o, state.keys) && depth >= 1
      requires (forall m <- moves :: Sound(state.Snapshot(), m)) && Children(state.Snapshot(), moves)
      ensures state.Valid() && state.Snapshot() == old(state.Snapshot())
      ensures state.history == old(state.history)
      ensures RootResult(score, bestMove, tt) == RootLoop(o, old(state.Snapshot()), old(tt), depth, moves, -INF, None)
    {
      ghost var p := state.Snapshot();
      ghost var tt0 := tt;
      var alpha := -INF;
      bestMove := None;
      assert moves[0..] == moves;
      for k := 0 to |moves|
        invariant state.Valid() && state.Snapshot() == p && state.history == old(state.history)
        invariant Children(p, moves[k..])
        invariant RootLoop(o, p, tt0, depth, moves, -INF, None) ==
          RootLoop(o, p, tt, depth, moves[k..], alpha, bestMove)
      {
        alpha, bestMove := RootStep(state, o, p, depth, moves, k, alpha, bestMove);
      }
      score := alpha;
    }

    /** One turn of alphabeta_root's loop: search the k-th move with the
        window (-INF, -alpha) negated, and make it the best move when it
        raises alpha. */
    method RootStep(state: GameState, ghost o: Ingredients, ghost p: Position, depth: nat, moves: seq<Move>, k: nat,
                    alpha: int, bestMove: Option<Move>)
      returns (alpha': int, bestMove': Option<Move>)
      modifies this, state, state.board
      requires state.Valid() && state.Snapshot() == p && Consistent(p) && IsEngine(o, state.keys) && depth >= 1
      requires k < |moves| && (forall m <- moves :: Sound(p, m)) && Children(p, moves[k..])
      ensures state.Valid() && state.Snapshot() == p
      ensures state.history == old(state.history)
      ensures Children(p, moves[k + 1..])
      ensures RootLoop(o, p, old(tt), depth, moves[k..], alpha, bestMove) ==
        RootLoop(o, p, tt, depth, moves[k + 1..], alpha', bestMove')
    {
      var m := moves[k];
      ghost var before := tt;
      var s := SearchChild(state, o, p, moves, k, depth, -INF, -alpha);
      alpha', bestMove' := alpha, bestMove;
      if -s > alpha {
        alpha' := -s;
        bestMove' := Some(m);
      }
      RootLoopAt(o, p, before, depth, moves, k, alpha, bestMove, Outcome(s, tt), alpha', bestMove');
    }

    /** search: alphabeta_root at depths 1 to maxDepth, keeping the result
        of the last one. */
    method Search(state: GameState, ghost o: Ingredients, maxDepth: int) returns (bestMove: Option<Move>, bestScore: int)
      modifies this, state, state.board
      requires state.Valid() && Consistent(state.Snapshot()) && IsEngine(o, state.keys)
      ensures state.Valid() && state.Snapshot() == old(state.Snapshot())
      ensures state.history == old(state.history)
      ensures RootResult(bestScore, bestMove, tt) == Deepen(o, old(state.Snapshot()), old(tt), 1, maxDepth, None, -INF)
    {
      ghost var p := state.Snapshot();
      ghost var tt0 := tt;
      bestMove := None;
      bestScore := -INF;
      var depth := 1;
      while depth <= maxDepth
        invariant depth >= 1
        invariant state.Valid() && state.Snapshot() == p && state.history == old(state.history)
        invariant Deepen(o, p, tt0, 1, maxDepth, None, -INF) == Deepen(o, p, tt, depth, maxDepth, bestMove, bestScore)
        decreases maxDepth - depth
      {
        ghost var before := tt;
        var score, move := AlphaBetaRoot(state, o, depth);
        DeepenStep(o, p, before, depth, maxDepth, bestMove, bestScore, RootResult(score, move, tt));
        bestMove, bestScore := move, score;
        depth := depth + 1;
      }
    }
  }
}
