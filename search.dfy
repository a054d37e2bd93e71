/** The search on values: fail-hard capture-only quiescence, negamax
    alpha-beta with a transposition table keyed by the Zobrist hash, the
    root loop and iterative deepening. The functions thread the table
    through every call; they take what they consult (hash, evaluation,
    move lists) as Ingredients, and Engine(keys) supplies the engine's
    own. The Searching module proves the engine's methods compute them. */
module Search {
  import opened Common
  import opened Pieces
  import opened Positions
  import opened Zobrist
  import opened Movegen
  import opened MoveFacts
  import opened Attacks
  import opened CheckFacts
  import opened Legality
  import opened Evaluation
  import opened Ordering

  /** A score beyond every evaluation. */
  const INF: int := 1_000_000_000

  /** What a stored score says about the true value: exact, a lower bound
      (the search failed high), or an upper bound (it failed low). */
  datatype Flag = Exact | LowerBound | UpperBound

  /** A transposition-table entry: (depth, score, flag, best_move). */
  datatype Entry = Entry(depth: nat, score: int, flag: Flag, best: Option<Move>)

  /** The transposition table, keyed by Zobrist hash. */
  type Table = map<nat, Entry>

  datatype Outcome = Outcome(score: int, tt: Table)

  /** What the table probe at the head of alphabeta decides: return a
      stored score, or search with a (possibly narrowed) window. */
  datatype Probe = Hit(score: int) | Window(alpha: int, beta: int)

  datatype LoopResult = LoopResult(best: int, bestMove: Option<Move>, tt: Table)

  datatype RootResult = RootResult(score: int, move: Option<Move>, tt: Table)

  // ---------------------------------------------------------------------
  // The move lists the search walks

  lemma PseudoLegalUndoable(p: Position)
    requires Consistent(p)
    ensures forall m <- PseudoLegal(p) :: Sound(p, m) && Undoable(p, m)
  {
    PseudoLegalSound(p);
    forall m | m in PseudoLegal(p) ensures Undoable(p, m) {
      SoundUndoable(p, m);
    }
  }

  /** filter_legal_moves(generate_pseudo_legal_moves(state)). */
  function LegalMoves(p: Position): seq<Move>
    requires Consistent(p)
  {
    PseudoLegalUndoable(p);
    LegalFilter(p, PseudoLegal(p))
  }

  /** The legal moves are generated moves that leave the king safe. */
  lemma LegalMovesSound(p: Position)
    requires Consistent(p)
    ensures forall m <- LegalMoves(p) :: m in PseudoLegal(p) && Sound(p, m) && Undoable(p, m) && KingSafeAfter(p, m)
  {
    PseudoLegalUndoable(p);
    forall m | m in LegalMoves(p) ensures m in PseudoLegal(p) && KingSafeAfter(p, m) {
      LegalFilterMembers(p, PseudoLegal(p), m);
    }
  }

  /** The moves alphabeta searches, in order_moves order, are sound. */
  lemma OrderedSound(p: Position)
    requires Consistent(p)
    ensures forall m <- MoveOrder(LegalMoves(p)) :: m in LegalMoves(p) && Sound(p, m)
  {
    LegalMovesSound(p);
    MoveOrderPermutes(LegalMoves(p));
    forall m | m in MoveOrder(LegalMoves(p)) ensures m in LegalMoves(p) {
      assert m in multiset(LegalMoves(p));
    }
  }

  /** Every move of the list can be pushed on p and leaves a consistent
      position: what a move loop needs to search the children. Stated head first so that a proof about a loop unfolds one
      move at a time. */
  predicate Children(p: Position, moves: seq<Move>)
    requires WellFormed(p)
    decreases |moves|
  {
    moves == [] || (InRange(moves[0]) && Consistent(Apply(p, moves[0])) && Children(p, moves[1..]))
  }

  /** As Children, and every move takes a piece, so the child has fewer
      pieces on the board: what bounds the recursion of quiescence. */
  predicate CaptureChildren(p: Position, moves: seq<Move>)
    requires WellFormed(p)
    decreases |moves|
  {
    || moves == []
    || (&& InRange(moves[0]) && Consistent(Apply(p, moves[0]))
        && Occupied(Apply(p, moves[0]).board) < Occupied(p.board)
        && CaptureChildren(p, moves[1..]))
  }

  /** The k-th of a list of sound children, as a loop over the list meets
      it: it can be pushed and popped, and leaves a consistent position. */
  lemma ChildAt(p: Position, moves: seq<Move>, k: nat)
    requires Consistent(p) && k < |moves| && (forall m <- moves :: Sound(p, m)) && Children(p, moves[k..])
    ensures WellFormedMove(moves[k]) && InRange(moves[k]) && Consistent(Apply(p, moves[k]))
    ensures Undo(Apply(p, moves[k]), moves[k]) == p
  {
    assert moves[k] in moves;
    SoundUndoable(p, moves[k]);
    UndoApply(p, moves[k]);
    assert moves[k..][0] == moves[k];
  }

  /** The k-th of a list of sound captures, as quiescence's loop meets it:
      it also leaves fewer pieces. */
  lemma CaptureAt(p: Position, moves: seq<Move>, k: nat)
    requires Consistent(p) && k < |moves| && (forall m <- moves :: Sound(p, m)) && CaptureChildren(p, moves[k..])
    ensures WellFormedMove(moves[k]) && InRange(moves[k]) && Consistent(Apply(p, moves[k]))
    ensures Undo(Apply(p, moves[k]), moves[k]) == p
    ensures Occupied(Apply(p, moves[k]).board) < Occupied(p.board)
  {
    assert moves[k] in moves;
    SoundUndoable(p, moves[k]);
    UndoApply(p, moves[k]);
    assert moves[k..][0] == moves[k];
  }

  /** A sound move can be pushed and leaves a consistent position. */
  lemma SoundChild(p: Position, m: Move)
    requires Consistent(p) && Sound(p, m)
    ensures InRange(m) && Consistent(Apply(p, m))
  {
    SoundRestorable(p, m);
    SoundApply(p, m);
  }

  /** A sound capture also leaves one piece fewer. */
  lemma CaptureChild(p: Position, m: Move)
    requires Consistent(p) && Sound(p, m) && m.captured != '.'
    ensures InRange(m) && Consistent(Apply(p, m)) && Occupied(Apply(p, m).board) < Occupied(p.board)
  {
    SoundChild(p, m);
    CaptureShrinks(p, m);
  }

  lemma {:induction false} ChildrenFrom(p: Position, moves: seq<Move>)
    requires Consistent(p) && forall m <- moves :: Sound(p, m)
    ensures Children(p, moves)
    decreases |moves|
  {
    if moves != [] {
      TailMembers(moves);
      SoundChild(p, moves[0]);
      ChildrenFrom(p, moves[1..]);
    }
  }

  lemma {:induction false} CaptureChildrenFrom(p: Position, moves: seq<Move>)
    requires Consistent(p) && forall m <- moves :: Sound(p, m) && m.captured != '.'
    ensures CaptureChildren(p, moves)
    decreases |moves|
  {
    if moves != [] {
      TailMembers(moves);
      CaptureChild(p, moves[0]);
      CaptureChildrenFrom(p, moves[1..]);
    }
  }

  lemma TailMembers(s: seq<Move>)
    requires s != []
    ensures s[0] in s && forall x <- s[1..] :: x in s
  {
  }

  /** [m for m in moves if m.captured != '.']. */
  function Captures(moves: seq<Move>): (r: seq<Move>)
    ensures forall m :: m in r <==> m in moves && m.captured != '.'
  {
    if moves == [] then []
    else
      var rest := Captures(moves[..|moves| - 1]);
      var m := moves[|moves| - 1];
      assert moves == moves[..|moves| - 1] + [m];
      if m.captured != '.' then rest + [m] else rest
  }

  /** The captures quiescence searches: legal, most profitable first. */
  function QuiescenceMoves(p: Position): seq<Move>
    requires Consistent(p)
  {
    PseudoLegalUndoable(p);
    CaptureOrder(LegalFilter(p, Captures(PseudoLegal(p))))
  }

  lemma QuiescenceMovesSound(p: Position)
    requires Consistent(p)
    ensures forall m <- QuiescenceMoves(p) :: Sound(p, m) && m.captured != '.'
  {
    PseudoLegalUndoable(p);
    var caps := Captures(PseudoLegal(p));
    var legal := LegalFilter(p, caps);
    CaptureOrderPermutes(legal);
    forall m | m in QuiescenceMoves(p) ensures Sound(p, m) && m.captured != '.' {
      assert m in multiset(legal);
      LegalFilterMembers(p, caps, m);
    }
  }

  // ---------------------------------------------------------------------
  // What the search consults

  /** The ingredients of the search besides the position and the table:
      the table key of a position, the static evaluation of a board, the
      moves alphabeta tries (legal, in order_moves order) and the captures
      quiescence tries. The engine's own are Engine(keys). */
  datatype Oracle = Oracle(hash: Position -> nat, eval: seq<char> -> int,
                           moves: Position -> seq<Move>, captures: Position -> seq<Move>)

  /** Every move offered on a consistent position leads to a consistent
      position, and every capture offered takes a piece. */
  ghost predicate Lawful(o: Oracle) {
    && (forall q {:trigger o.moves(q)} :: Consistent(q) ==> Children(q, o.moves(q)))
    && (forall q {:trigger o.captures(q)} :: Consistent(q) ==> CaptureChildren(q, o.captures(q)))
  }

  /** Ingredients the search can run on. */
  type Ingredients = o: Oracle | Lawful(o)
    witness Oracle(q => 0, b => 0, q => [], q => [])

  /** evaluate, the engine's static evaluation, on any board. */
  function Eval(b: seq<char>): int {
    if |b| == 64 then Score(b) else 0
  }

  /** The table key of a position: its Zobrist hash under the given keys,
      which GameState keeps up to date as current_zobrist. */
  function Zob(keys: KeyTable): Position -> nat {
    q => if WellFormed(q) then Hash(keys, q) else 0
  }

  /** order_moves(filter_legal_moves(generate_pseudo_legal_moves)). */
  function OrderedMoves(q: Position): seq<Move> {
    if Consistent(q) then MoveOrder(LegalMoves(q)) else []
  }

  /** The captures quiescence tries. */
  function OrderedCaptures(q: Position): seq<Move> {
    if Consistent(q) then QuiescenceMoves(q) else []
  }

  /** The engine's move lists are fit to search: each ordered legal move
      and each legal capture leads to a consistent position, and each
      capture leaves fewer pieces on the board. */
  lemma EngineListsLawful(hash: Position -> nat, eval: seq<char> -> int)
    ensures Lawful(Oracle(hash, eval, OrderedMoves, OrderedCaptures))
  {
    forall q | Consistent(q) ensures Children(q, OrderedMoves(q)) {
      OrderedSound(q);
      ChildrenFrom(q, MoveOrder(LegalMoves(q)));
    }
    forall q | Consistent(q) ensures CaptureChildren(q, OrderedCaptures(q)) {
      QuiescenceMovesSound(q);
      CaptureChildrenFrom(q, QuiescenceMoves(q));
    }
  }

  /** The engine's ingredients under the Zobrist keys `keys`. */
  function Engine(keys: KeyTable): Ingredients {
    EngineListsLawful(Zob(keys), Eval);
    Oracle(Zob(keys), Eval, OrderedMoves, OrderedCaptures)
  }

  /** alphabeta tries exactly the legal moves, reordered; so it finds no
      move to try exactly when there is no legal move. */
  lemma EngineMoves(p: Position)
    requires Consistent(p)
    ensures multiset(OrderedMoves(p)) == multiset(LegalMoves(p))
    ensures OrderedMoves(p) == [] <==> LegalMoves(p) == []
  {
    MoveOrderPermutes(LegalMoves(p));
    assert |multiset(OrderedMoves(p))| == |OrderedMoves(p)|;
    assert |multiset(LegalMoves(p))| == |LegalMoves(p)|;
  }

  // ---------------------------------------------------------------------
  // Quiescence

  /** quiescence on values: stand pat on the static evaluation, then try
      the captures, failing hard at beta. */
  function QSearch(o: Ingredients, p: Position, alpha: int, beta: int): int
    requires Consistent(p)
    decreases Occupied(p.board), 1, 0
  {
    var standPat := o.eval(p.board);
    if standPat >= beta then beta
    else QLoop(o, p, o.captures(p), if standPat > alpha then standPat else alpha, beta)
  }

  /** The capture loop of quiescence. */
  function QLoop(o: Ingredients, p: Position, moves: seq<Move>, alpha: int, beta: int): int
    requires WellFormed(p) && CaptureChildren(p, moves)
    decreases Occupied(p.board), 0, |moves|
  {
    if moves == [] then alpha
    else
      var m := moves[0];
      var score := -QSearch(o, Apply(p, m), -beta, -alpha);
      if score >= beta then beta
      else QLoop(o, p, moves[1..], if score > alpha then score else alpha, beta)
  }

  /** quiescence fails hard: with alpha <= beta its value lies in
      [alpha, beta]. */
  lemma {:induction false} QSearchBounds(o: Ingredients, p: Position, alpha: int, beta: int)
    requires Consistent(p) && alpha <= beta
    ensures alpha <= QSearch(o, p, alpha, beta) <= beta
    decreases Occupied(p.board), 1, 0
  {
    var standPat := o.eval(p.board);
    if standPat < beta {
      QLoopBounds(o, p, o.captures(p), if standPat > alpha then standPat else alpha, beta);
    }
  }

  /** One turn of the capture loop, given the first capture's score. */
  lemma QLoopStep(o: Ingredients, p: Position, moves: seq<Move>, alpha: int, beta: int, score: int)
    requires WellFormed(p) && CaptureChildren(p, moves)
    requires moves != [] && InRange(moves[0]) && Consistent(Apply(p, moves[0]))
    requires score == -QSearch(o, Apply(p, moves[0]), -beta, -alpha)
    ensures QLoop(o, p, moves, alpha, beta) ==
      if score >= beta then beta else QLoop(o, p, moves[1..], if score > alpha then score else alpha, beta)
  {
  }

  /** QLoopStep at the k-th capture of a list, with the loop's next cut
      flag and alpha. */
  lemma QLoopAt(o: Ingredients, p: Position, moves: seq<Move>, k: nat, alpha: int, beta: int, score: int,
                cut: bool, alpha': int)
    requires Consistent(p) && k < |moves| && CaptureChildren(p, moves[k..])
    requires score == -QSearch(o, Apply(p, moves[k]), -beta, -alpha)
    requires cut == (score >= beta) && alpha' == if score > alpha then score else alpha
    ensures CaptureChildren(p, moves[k + 1..])
    ensures cut ==> QLoop(o, p, moves[k..], alpha, beta) == beta
    ensures !cut ==> QLoop(o, p, moves[k..], alpha, beta) == QLoop(o, p, moves[k + 1..], alpha', beta)
  {
    assert moves[k..][0] == moves[k] && moves[k..][1..] == moves[k + 1..];
    QLoopStep(o, p, moves[k..], alpha, beta, score);
  }

  lemma {:induction false} QLoopBounds(o: Ingredients, p: Position, moves: seq<Move>, alpha: int, beta: int)
    requires WellFormed(p) && CaptureChildren(p, moves)
    requires alpha <= beta
    ensures alpha <= QLoop(o, p, moves, alpha, beta) <= beta
    decreases Occupied(p.board), 0, |moves|
  {
    if moves != [] {
      var m := moves[0];
      QSearchBounds(o, Apply(p, m), -beta, -alpha);
      var score := -QSearch(o, Apply(p, m), -beta, -alpha);
      QLoopStep(o, p, moves, alpha, beta, score);
      if score < beta {
        QLoopBounds(o, p, moves[1..], if score > alpha then score else alpha, beta);
      }
    }
  }

  // ---------------------------------------------------------------------
  // Alpha-beta

  /** The king of the side to move. */
  function OwnKing(p: Position): char {
    if p.activeColor == "w" then 'K' else 'k'
  }

  /** The score of a position without legal moves: a mate score that is
      less bad the more depth was left, or 0 for stalemate. A missing king
      counts as mated. */
  function NoMovesScore(p: Position, depth: nat): int
    requires WellFormed(p)
  {
    var ks := KingSquare(p.board, OwnKing(p));
    if ks.None? || Attacked(p.board, ks.value, Opponent(p.activeColor)) then -INF + (100 - depth) else 0
  }

  /** The table flag for a finished search: UPPER when the best score did
      not beat the window's lower edge, LOWER (taking precedence) when it
      reached the upper edge, EXACT otherwise. */
  function TtFlag(best: int, alphaOrig: int, beta: int): (f: Flag)
    ensures f == LowerBound <==> best >= beta
    ensures f == UpperBound <==> best <= alphaOrig && best < beta
    ensures f == Exact <==> alphaOrig < best < beta
  {
    var f := if best <= alphaOrig then UpperBound else Exact;
    if best >= beta then LowerBound else f
  }

  /** The transposition lookup: an entry searched at least as deep returns
      its score when EXACT; otherwise a LOWER entry above alpha raises
      alpha, or else an UPPER entry below beta lowers beta, and the stored
      score is returned when the window closes. */
  function TableProbe(tt: Table, zob: nat, depth: nat, alpha: int, beta: int): (r: Probe)
    ensures r.Hit? ==> zob in tt && tt[zob].depth >= depth && r.score == tt[zob].score
    ensures zob in tt && tt[zob].depth >= depth && tt[zob].flag == Exact ==> r == Hit(tt[zob].score)
    ensures zob !in tt || tt[zob].depth < depth ==> r == Window(alpha, beta)
    ensures r.Window? ==> alpha <= r.alpha && r.beta <= beta
    ensures r.Window? && zob in tt && tt[zob].depth >= depth ==> r.alpha < r.beta
  {
    if zob in tt && tt[zob].depth >= depth then
      var e := tt[zob];
      if e.flag == Exact then Hit(e.score)
      else
        var (a, b) :=
          if e.flag == LowerBound && e.score > alpha then (e.score, beta)
          else if e.flag == UpperBound && e.score < beta then (alpha, e.score)
          else (alpha, beta);
        if a >= b then Hit(e.score) else Window(a, b)
    else Window(alpha, beta)
  }

  /** alphabeta on values: probe the table, then search. */
  function AB(o: Ingredients, p: Position, tt: Table, depth: nat, alpha: int, beta: int): Outcome
    requires Consistent(p)
    decreases depth, 2, 0
  {
    match TableProbe(tt, o.hash(p), depth, alpha, beta)
    case Hit(score) => Outcome(score, tt)
    case Window(a, b) => ABSearch(o, p, tt, depth, a, b)
  }

  /** The body of alphabeta after the table probe: quiescence at depth 0,
      mate or stalemate without moves, otherwise the move loop and a table
      store. */
  function ABSearch(o: Ingredients, p: Position, tt: Table, depth: nat, alpha: int, beta: int): Outcome
    requires Consistent(p)
    decreases depth, 1, 0
  {
    if depth == 0 then Outcome(QSearch(o, p, alpha, beta), tt)
    else if o.moves(p) == [] then Outcome(NoMovesScore(p, depth), tt)
    else
      var r := ABLoop(o, p, tt, depth, o.moves(p), alpha, beta, -INF, None);
      Outcome(r.best, r.tt[o.hash(p) := Entry(depth, r.best, TtFlag(r.best, alpha, beta), r.bestMove)])
  }

  /** The move loop of alphabeta: negamax each child with the window
      negated, keep the best score and move, cut off at beta. */
  function ABLoop(o: Ingredients, p: Position, tt: Table, depth: nat, moves: seq<Move>,
                  alpha: int, beta: int, best: int, bestMove: Option<Move>): LoopResult
    requires WellFormed(p) && depth >= 1 && Children(p, moves)
    decreases depth, 0, |moves|
  {
    if moves == [] then LoopResult(best, bestMove, tt)
    else
      var m := moves[0];
      var child := AB(o, Apply(p, m), tt, depth - 1, -beta, -alpha);
      var score := -child.score;
      var best' := if score > best then score else best;
      var bestMove' := if score > best then Some(m) else bestMove;
      var alpha' := if score > alpha then score else alpha;
      if alpha' >= beta then LoopResult(best', bestMove', child.tt)
      else ABLoop(o, p, child.tt, depth, moves[1..], alpha', beta, best', bestMove')
  }

  predicate TableBounded(tt: Table) {
    forall k :: k in tt ==> -INF <= tt[k].score <= INF
  }

  /** alphabeta's scores stay within [-INF, INF] (mate scores included, up
      to depth 100), and so do the scores it stores. */
  lemma {:induction false} ABBounded(o: Ingredients, p: Position, tt: Table, depth: nat, alpha: int, beta: int)
    requires Consistent(p) && TableBounded(tt) && -INF <= alpha <= beta <= INF && depth <= 100
    ensures -INF <= AB(o, p, tt, depth, alpha, beta).score <= INF
    ensures TableBounded(AB(o, p, tt, depth, alpha, beta).tt)
    decreases depth, 2, 0
  {
    var r := TableProbe(tt, o.hash(p), depth, alpha, beta);
    if r.Window? {
      ABSearchBounded(o, p, tt, depth, r.alpha, r.beta);
    }
  }

  lemma {:induction false} ABSearchBounded(o: Ingredients, p: Position, tt: Table, depth: nat, alpha: int, beta: int)
    requires Consistent(p) && TableBounded(tt) && -INF <= alpha <= beta <= INF && depth <= 100
    ensures -INF <= ABSearch(o, p, tt, depth, alpha, beta).score <= INF
    ensures TableBounded(ABSearch(o, p, tt, depth, alpha, beta).tt)
    decreases depth, 1, 0
  {
    if depth == 0 {
      QSearchBounds(o, p, alpha, beta);
    } else if o.moves(p) != [] {
      ABLoopBounded(o, p, tt, depth, o.moves(p), alpha, beta, -INF, None);
    }
  }

  /** One turn of the move loop, given the first child's outcome. */
  lemma ABLoopStep(o: Ingredients, p: Position, tt: Table, depth: nat, moves: seq<Move>,
                   alpha: int, beta: int, best: int, bestMove: Option<Move>, child: Outcome)
    requires WellFormed(p) && depth >= 1 && Children(p, moves)
    requires moves != [] && InRange(moves[0]) && Consistent(Apply(p, moves[0]))
    requires child == AB(o, Apply(p, moves[0]), tt, depth - 1, -beta, -alpha)
    ensures ABLoop(o, p, tt, depth, moves, alpha, beta, best, bestMove) ==
      if (if -child.score > alpha then -child.score else alpha) >= beta then
        LoopResult(if -child.score > best then -child.score else best,
                   if -child.score > best then Some(moves[0]) else bestMove, child.tt)
      else
        ABLoop(o, p, child.tt, depth, moves[1..], if -child.score > alpha then -child.score else alpha, beta,
               if -child.score > best then -child.score else best,
               if -child.score > best then Some(moves[0]) else bestMove)
  {
  }

  /** ABLoopStep at the k-th move of a list, with the loop's next cut
      flag, alpha, best score and best move. */
  lemma ABLoopAt(o: Ingredients, p: Position, tt: Table, depth: nat, moves: seq<Move>, k: nat,
                 alpha: int, beta: int, best: int, bestMove: Option<Move>, child: Outcome,
                 cut: bool, alpha': int, best': int, bestMove': Option<Move>)
    requires WellFormed(p) && depth >= 1 && k < |moves| && Children(p, moves[k..])
    requires child == AB(o, Apply(p, moves[k]), tt, depth - 1, -beta, -alpha)
    requires best' == (if -child.score > best then -child.score else best)
    requires bestMove' == (if -child.score > best then Some(moves[k]) else bestMove)
    requires alpha' == (if -child.score > alpha then -child.score else alpha) && cut == (alpha' >= beta)
    ensures Children(p, moves[k + 1..])
    ensures cut ==> (ABLoop(o, p, tt, depth, moves[k..], alpha, beta, best, bestMove) ==
      LoopResult(best', bestMove', child.tt))
    ensures !cut ==> (ABLoop(o, p, tt, depth, moves[k..], alpha, beta, best, bestMove) ==
      ABLoop(o, p, child.tt, depth, moves[k + 1..], alpha', beta, best', bestMove'))
  {
    assert moves[k..][0] == moves[k] && moves[k..][1..] == moves[k + 1..];
    ABLoopStep(o, p, tt, depth, moves[k..], alpha, beta, best, bestMove, child);
  }

  lemma {:induction false} ABLoopBounded(o: Ingredients, p: Position, tt: Table, depth: nat, moves: seq<Move>,
                                         alpha: int, beta: int, best: int, bestMove: Option<Move>)
    requires WellFormed(p) && depth >= 1 && Children(p, moves)
    requires TableBounded(tt) && -INF <= alpha <= beta <= INF && -INF <= best <= INF && depth <= 100
    ensures -INF <= ABLoop(o, p, tt, depth, moves, alpha, beta, best, bestMove).best <= INF
    ensures TableBounded(ABLoop(o, p, tt, depth, moves, alpha, beta, best, bestMove).tt)
    decreases depth, 0, |moves|
  {
    if moves != [] {
      var m := moves[0];
      assert moves[0..] == moves;
      var child := AB(o, Apply(p, m), tt, depth - 1, -beta, -alpha);
      ABBounded(o, Apply(p, m), tt, depth - 1, -beta, -alpha);
      var score := -child.score;
      var alpha' := if score > alpha then score else alpha;
      var best' := if score > best then score else best;
      var bestMove' := if score > best then Some(m) else bestMove;
      ABLoopAt(o, p, tt, depth, moves, 0, alpha, beta, best, bestMove, child, alpha' >= beta, alpha', best', bestMove');
      if alpha' < beta {
        ABLoopBounded(o, p, child.tt, depth, moves[1..], alpha', beta, best', bestMove');
      }
    }
  }

  /** The same position with the other side to move and no en-passant
      target: the opponent's view of the board. */
  function Pass(p: Position): Position {
    Position(p.board, Opponent(p.activeColor), p.castling, "-", p.halfmove, p.fullmove)
  }

  /** The mover's king is missing, or some pseudo-legal move of the
      opponent lands on it. */
  predicate KingCapturable(p: Position)
    requires Consistent(p)
  {
    var ks := KingSquare(p.board, OwnKing(p));
    ks.None? || exists r :: r in PseudoLegal(Pass(p)) && r.toSq == ks.value
  }

  /** Without legal moves and without a usable table entry, the engine's
      alphabeta scores a mate when the opponent could take the king and a
      draw otherwise. */
  lemma MateOrStalemate(keys: KeyTable, p: Position, tt: Table, depth: nat, alpha: int, beta: int)
    requires Consistent(p) && depth >= 1 && LegalMoves(p) == []
    requires Zob(keys)(p) !in tt || tt[Zob(keys)(p)].depth < depth
    ensures AB(Engine(keys), p, tt, depth, alpha, beta) ==
      Outcome(if KingCapturable(p) then -INF + (100 - depth) else 0, tt)
  {
    EngineMoves(p);
    var ks := KingSquare(p.board, OwnKing(p));
    if ks.Some? {
      var q := Pass(p);
      assert Consistent(q);
      assert Target(q, ks.value);
      AttackedIffCapture(q, ks.value);
    }
  }

  // ---------------------------------------------------------------------
  // The root and iterative deepening

  /** The loop of alphabeta_root: full window, no cut-off, keep the first
      move that raises alpha. */
  function RootLoop(o: Ingredients, p: Position, tt: Table, depth: nat, moves: seq<Move>,
                    alpha: int, bestMove: Option<Move>): RootResult
    requires WellFormed(p) && depth >= 1 && Children(p, moves)
    decreases |moves|
  {
    if moves == [] then RootResult(alpha, bestMove, tt)
    else
      var m := moves[0];
      var child := AB(o, Apply(p, m), tt, depth - 1, -INF, -alpha);
      var val := -child.score;
      if val > alpha then RootLoop(o, p, child.tt, depth, moves[1..], val, Some(m))
      else RootLoop(o, p, child.tt, depth, moves[1..], alpha, bestMove)
  }

  /** alphabeta_root on values. */
  function Root(o: Ingredients, p: Position, tt: Table, depth: nat): RootResult
    requires Consistent(p) && depth >= 1
  {
    RootLoop(o, p, tt, depth, o.moves(p), -INF, None)
  }

  /** One turn of the root loop, given the first child's outcome. */
  lemma RootLoopStep(o: Ingredients, p: Position, tt: Table, depth: nat, moves: seq<Move>,
                     alpha: int, bestMove: Option<Move>, child: Outcome)
    requires WellFormed(p) && depth >= 1 && Children(p, moves)
    requires moves != [] && InRange(moves[0]) && Consistent(Apply(p, moves[0]))
    requires child == AB(o, Apply(p, moves[0]), tt, depth - 1, -INF, -alpha)
    ensures RootLoop(o, p, tt, depth, moves, alpha, bestMove) ==
      if -child.score > alpha then RootLoop(o, p, child.tt, depth, moves[1..], -child.score, Some(moves[0]))
      else RootLoop(o, p, child.tt, depth, moves[1..], alpha, bestMove)
  {
  }

  /** RootLoopStep at the k-th move of a list, with the loop's next alpha
      and best move. */
  lemma RootLoopAt(o: Ingredients, p: Position, tt: Table, depth: nat, moves: seq<Move>, k: nat,
                   alpha: int, bestMove: Option<Move>, child: Outcome, alpha': int, bestMove': Option<Move>)
    requires Consistent(p) && depth >= 1 && k < |moves| && Children(p, moves[k..])
    requires child == AB(o, Apply(p, moves[k]), tt, depth - 1, -INF, -alpha)
    requires alpha' == (if -child.score > alpha then -child.score else alpha)
    requires bestMove' == (if -child.score > alpha then Some(moves[k]) else bestMove)
    ensures Children(p, moves[k + 1..])
    ensures RootLoop(o, p, tt, depth, moves[k..], alpha, bestMove) ==
      RootLoop(o, p, child.tt, depth, moves[k + 1..], alpha', bestMove')
  {
    assert moves[k..][0] == moves[k] && moves[k..][1..] == moves[k + 1..];
    RootLoopStep(o, p, tt, depth, moves[k..], alpha, bestMove, child);
  }

  lemma {:induction false} RootLoopChooses(o: Ingredients, p: Position, tt: Table, depth: nat, moves: seq<Move>,
                                           alpha: int, bestMove: Option<Move>)
    requires WellFormed(p) && depth >= 1 && Children(p, moves)
    ensures alpha <= RootLoop(o, p, tt, depth, moves, alpha, bestMove).score
    ensures RootLoop(o, p, tt, depth, moves, alpha, bestMove).score == alpha ==>
      RootLoop(o, p, tt, depth, moves, alpha, bestMove).move == bestMove
    ensures RootLoop(o, p, tt, depth, moves, alpha, bestMove).score > alpha ==>
      RootLoop(o, p, tt, depth, moves, alpha, bestMove).move.Some? &&
      RootLoop(o, p, tt, depth, moves, alpha, bestMove).move.value in moves
    decreases |moves|
  {
    if moves == [] {
      assert RootLoop(o, p, tt, depth, moves, alpha, bestMove) == RootResult(alpha, bestMove, tt);
    } else {
      var m := moves[0];
      TailMembers(moves);
      var child := AB(o, Apply(p, m), tt, depth - 1, -INF, -alpha);
      RootLoopStep(o, p, tt, depth, moves, alpha, bestMove, child);
      if -child.score > alpha {
        RootLoopChooses(o, p, child.tt, depth, moves[1..], -child.score, Some(m));
      } else {
        RootLoopChooses(o, p, child.tt, depth, moves[1..], alpha, bestMove);
      }
    }
  }

  /** alphabeta_root returns one of the moves it tried whenever some move
      scores above -INF, and no move with the score -INF. */
  lemma RootChooses(o: Ingredients, p: Position, tt: Table, depth: nat)
    requires Consistent(p) && depth >= 1
    ensures Root(o, p, tt, depth).score >= -INF
    ensures Root(o, p, tt, depth).move.Some? ==>
      Root(o, p, tt, depth).move.value in o.moves(p) && Root(o, p, tt, depth).score > -INF
    ensures Root(o, p, tt, depth).move.None? ==> Root(o, p, tt, depth).score == -INF
  {
    RootLoopChooses(o, p, tt, depth, o.moves(p), -INF, None);
  }

  /** search on values: alphabeta_root at depths 1, 2, ... maxDepth with
      the table carried over, keeping the last result. */
  function Deepen(o: Ingredients, p: Position, tt: Table, depth: nat, maxDepth: int,
                  move: Option<Move>, score: int): RootResult
    requires Consistent(p) && depth >= 1
    decreases maxDepth - depth
  {
    if depth > maxDepth then RootResult(score, move, tt)
    else
      var r := Root(o, p, tt, depth);
      Deepen(o, p, r.tt, depth + 1, maxDepth, r.move, r.score)
  }

  /** One iteration of the deepening loop, given its root result. */
  lemma DeepenStep(o: Ingredients, p: Position, tt: Table, depth: nat, maxDepth: int,
                   move: Option<Move>, score: int, r: RootResult)
    requires Consistent(p) && depth >= 1 && depth <= maxDepth
    requires r == Root(o, p, tt, depth)
    ensures Deepen(o, p, tt, depth, maxDepth, move, score) == Deepen(o, p, r.tt, depth + 1, maxDepth, r.move, r.score)
  {
  }

  /** The deepening keeps a move only if it is one the search tries, and
      returns what it was given once past maxDepth. */
  lemma {:induction false} DeepenChooses(o: Ingredients, p: Position, tt: Table, depth: nat, maxDepth: int,
                                         move: Option<Move>, score: int)
    requires Consistent(p) && depth >= 1
    requires move.Some? ==> move.value in o.moves(p)
    ensures Deepen(o, p, tt, depth, maxDepth, move, score).move.Some? ==>
      Deepen(o, p, tt, depth, maxDepth, move, score).move.value in o.moves(p)
    ensures depth > maxDepth ==> Deepen(o, p, tt, depth, maxDepth, move, score) == RootResult(score, move, tt)
    decreases maxDepth - depth
  {
    if depth <= maxDepth {
      var r := Root(o, p, tt, depth);
      RootChooses(o, p, tt, depth);
      DeepenStep(o, p, tt, depth, maxDepth, move, score, r);
      DeepenChooses(o, p, r.tt, depth + 1, maxDepth, r.move, r.score);
    }
  }

  /** The engine's search returns no move for a maximum depth below 1,
      and otherwise either no move or a legal one. */
  lemma SearchChoosesLegal(keys: KeyTable, p: Position, tt: Table, maxDepth: int)
    requires Consistent(p)
    ensures Deepen(Engine(keys), p, tt, 1, maxDepth, None, -INF).move.Some? ==>
      Deepen(Engine(keys), p, tt, 1, maxDepth, None, -INF).move.value in LegalMoves(p)
    ensures maxDepth < 1 ==> Deepen(Engine(keys), p, tt, 1, maxDepth, None, -INF) == RootResult(-INF, None, tt)
  {
    DeepenChooses(Engine(keys), p, tt, 1, maxDepth, None, -INF);
    OrderedSound(p);
  }
}
