/** parse_move_input: reading a move typed as coordinates ("e2e4",
    "e7e8q") and matching it against the legal moves of the position. */
module Notation {
  import opened Common
  import opened Text
  import opened Squares
  import opened Pieces
  import opened Positions
  import opened MoveFacts
  import opened Legality
  import opened State
  import opened Search
  import opened Searching

  /** What parse_move_input gives back: a move, None, or the ValueError
      that int() raises on a rank character that is not a digit. */
  datatype Parsed = Chosen(move: Move) | NoMove | RankError

  /** The promotion asked for by the fifth character: one of q, r, b, n in
      either case, as an upper-case letter when White is to move and a
      lower-case one otherwise; any other character asks for none. */
  function Promotion(c: char, color: string): (r: Option<char>)
    ensures r.Some? <==> Lower(c) in "qrbn"
    ensures r.Some? ==> Lower(r.value) == Lower(c)
  {
    var ch := Lower(c);
    if ch in "qrbn" then Some(if color == "w" then Upper(ch) else ch) else None
  }

  /** The queen a promotion defaults to when none was typed. */
  function DefaultQueen(color: string): char {
    if color == "w" then 'Q' else 'q'
  }

  /** The loop stops at m: it goes between the typed squares, and either is
      not a promotion, or no promotion was typed, or it promotes to the
      typed piece (compared in lower case). */
  predicate Stops(m: Move, from: int, to: int, promotion: Option<char>) {
    && m.fromSq == from && m.toSq == to
    && (m.promotion.None? || promotion.None? || Lower(m.promotion.value) == Lower(promotion.value))
  }

  /** What the loop returns at a move it stops at: the move itself, or for
      a promotion typed without a piece, the same squares promoting to a
      queen. */
  function Answer(p: Position, m: Move, promotion: Option<char>): Move
    requires WellFormed(p) && OnBoard(m.fromSq) && OnBoard(m.toSq)
  {
    if m.promotion.Some? && promotion.None? then MakeMove(p, m.fromSq, m.toSq, Some(DefaultQueen(p.activeColor)))
    else m
  }

  predicate OnBoardMoves(moves: seq<Move>) {
    forall m <- moves :: OnBoard(m.fromSq) && OnBoard(m.toSq)
  }

  /** The candidate loop: the answer at the first move it stops at. */
  function Pick(p: Position, moves: seq<Move>, from: int, to: int, promotion: Option<char>): (r: Option<Move>)
    requires WellFormed(p) && OnBoardMoves(moves)
    ensures r.None? <==> forall m <- moves :: !Stops(m, from, to, promotion)
    ensures r.Some? ==> exists i :: (&& 0 <= i < |moves| && Stops(moves[i], from, to, promotion)
                                     && r.value == Answer(p, moves[i], promotion)
                                     && forall j :: 0 <= j < i ==> !Stops(moves[j], from, to, promotion))
  {
    if moves == [] then None
    else
      var m := moves[0];
      if Stops(m, from, to, promotion) then Some(Answer(p, m, promotion))
      else
        var r := Pick(p, moves[1..], from, to, promotion);
        assert forall k :: 0 <= k < |moves| - 1 ==> moves[1..][k] == moves[k + 1];
        r
  }

  /** parse_move_input against a list of candidates: strip the text;
      fewer than four characters is None; a non-digit rank is a ValueError;
      otherwise the two squares, the optional promotion letter and the
      candidate loop. */
  function ParseText(s: string, p: Position, candidates: seq<Move>): Parsed
    requires WellFormed(p) && OnBoardMoves(candidates)
  {
    var t := StripSpace(s);
    if |t| < 4 then NoMove
    else if !IsDigit(t[1]) || !IsDigit(t[3]) then RankError
    else
      var promotion := if |t| >= 5 then Promotion(t[4], p.activeColor) else None;
      match Pick(p, candidates, SqToCoords(t[0..2]), SqToCoords(t[2..4]), promotion)
      case Some(m) => Chosen(m)
      case None => NoMove
  }

  /** parse_move_input on values: the candidates are the legal moves. */
  function ParseMove(s: string, p: Position): Parsed
    requires Consistent(p)
  {
    LegalMovesSound(p);
    ParseText(s, p, LegalMoves(p))
  }

  /** parse_move_input: the legal moves are generated on the state (pushed
      and popped back), then walked in order. */
  method ParseMoveInput(s: string, state: GameState) returns (r: Parsed)
    modifies state, state.board
    requires state.Valid() && Consistent(state.Snapshot())
    ensures state.Valid() && state.Snapshot() == old(state.Snapshot())
    ensures state.history == old(state.history)
    ensures r == ParseMove(s, old(state.Snapshot()))
  {
    ghost var p := state.Snapshot();
    var t := StripSpace(s);
    if |t| < 4 {
      return NoMove;
    }
    if !IsDigit(t[1]) || !IsDigit(t[3]) {
      return RankError;
    }
    var from := SqToCoords(t[0..2]);
    var to := SqToCoords(t[2..4]);
    var promotion := None;
    if |t| >= 5 {
      var ch := Lower(t[4]);
      if ch in "qrbn" {
        promotion := Some(if state.activeColor == "w" then Upper(ch) else ch);
      }
    }
    var candidates := LegalMoveList(state);
    LegalMovesSound(p);
    r := ScanCandidates(state, candidates, from, to, promotion);
  }

  /** The loop of parse_move_input over the candidates, in order. */
  method ScanCandidates(state: GameState, candidates: seq<Move>, from: int, to: int, promotion: Option<char>)
    returns (r: Parsed)
    requires state.Valid() && OnBoardMoves(candidates)
    ensures r == match Pick(state.Snapshot(), candidates, from, to, promotion)
                 case Some(m) => Chosen(m)
                 case None => NoMove
  {
    ghost var p := state.Snapshot();
    assert candidates[0..] == candidates;
    for i := 0 to |candidates|
      invariant Pick(p, candidates, from, to, promotion) == Pick(p, candidates[i..], from, to, promotion)
    {
      var m := candidates[i];
      assert candidates[i..][0] == m && candidates[i..][1..] == candidates[i + 1..];
      if m.fromSq == from && m.toSq == to {
        if m.promotion.Some? {
          if promotion.Some? {
            if Lower(m.promotion.value) == Lower(promotion.value) {
              return Chosen(m);
            }
          } else {
            var defaultProm := if state.activeColor == "w" then 'Q' else 'q';
            var queen := state.MakeMoveStruct(from, to, Some(defaultProm));
            return Chosen(queen);
          }
        } else {
          return Chosen(m);
        }
      }
    }
    return NoMove;
  }

  // ---------------------------------------------------------------------
  // What a parsed move is

  /** A chosen move goes between the typed squares and is either a legal
      move or, when a promotion was typed without a piece, the queen
      promotion of a legal promotion between those squares. */
  lemma ChosenIsCandidate(s: string, p: Position, moves: seq<Move>)
    requires WellFormed(p) && OnBoardMoves(moves) && ParseText(s, p, moves).Chosen?
    ensures var t := StripSpace(s);
      var r := ParseText(s, p, moves).move;
      && |t| >= 4 && IsDigit(t[1]) && IsDigit(t[3])
      && r.fromSq == SqToCoords(t[0..2]) && r.toSq == SqToCoords(t[2..4])
      && (r in moves ||
          exists m <- moves :: m.fromSq == r.fromSq && m.toSq == r.toSq && m.promotion.Some?
            && r == MakeMove(p, r.fromSq, r.toSq, Some(DefaultQueen(p.activeColor))))
  {
    var t := StripSpace(s);
    var promotion := if |t| >= 5 then Promotion(t[4], p.activeColor) else None;
    var from, to := SqToCoords(t[0..2]), SqToCoords(t[2..4]);
    var r := Pick(p, moves, from, to, promotion);
    var i :| 0 <= i < |moves| && Stops(moves[i], from, to, promotion) && r.value == Answer(p, moves[i], promotion);
    assert moves[i] in moves;
  }

  // ---------------------------------------------------------------------
  // Typing a legal move back

  /** The coordinate text of a move: its two square names and, for a
      promotion, the promoted piece in lower case. */
  function MoveText(m: Move): (t: string)
    requires OnBoard(m.fromSq) && OnBoard(m.toSq)
    ensures |t| == 4 || (|t| == 5 && m.promotion.Some?)
  {
    IdxToSq(m.fromSq) + IdxToSq(m.toSq) + if m.promotion.Some? then [Lower(m.promotion.value)] else []
  }

  /** Typing a legal move is accepted: the move chosen goes between the
      same squares and, when the move's promotion piece is one of q, r, b,
      n, it is not a different promotion. */
  lemma ParseMoveText(p: Position, moves: seq<Move>, m: Move)
    requires WellFormed(p) && OnBoardMoves(moves) && m in moves
    requires m.promotion.Some? ==> IsPiece(m.promotion.value)
    ensures ParseText(MoveText(m), p, moves).Chosen?
    ensures var r := ParseText(MoveText(m), p, moves).move;
      && r.fromSq == m.fromSq && r.toSq == m.toSq
      && (m.promotion.Some? && Lower(m.promotion.value) in "qrbn" ==>
            r.promotion.None? || Lower(r.promotion.value) == Lower(m.promotion.value))
  {
    var t := MoveText(m);
    var a, b := IdxToSq(m.fromSq), IdxToSq(m.toSq);
    assert t[0..2] == a && t[2..4] == b;
    assert IsSquareName(a) && IsSquareName(b);
    assert !IsSpace(t[0]);
    if m.promotion.Some? {
      assert t[4] == Lower(m.promotion.value) && IsLower(t[4]);
    }
    assert !IsSpace(t[|t| - 1]);
    StripSpaceKeeps(t);
    assert IsDigit(t[1]) && IsDigit(t[3]);
    IndexRoundTrip(m.fromSq);
    IndexRoundTrip(m.toSq);
    var promotion := if |t| >= 5 then Promotion(t[4], p.activeColor) else None;
    assert Stops(m, m.fromSq, m.toSq, promotion);
    var r := Pick(p, moves, SqToCoords(t[0..2]), SqToCoords(t[2..4]), promotion);
    assert r.Some?;
    assert ParseText(t, p, moves) == Chosen(r.value);
  }
}
