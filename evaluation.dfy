/** Static evaluation: material from PIECE_VALUES plus the piece-square
    tables, summed over the occupied squares, from White's point of view.
    A white piece reads its table at its own square, a black piece at
    63 - sq, negated: the board turned half round, which flips both the
    rank and the file. */
module Evaluation {
  import opened Common
  import opened Pieces
  import opened State

  /** PIECE_VALUES.get(c, 0): positive for White, negative for Black. */
  function PieceValue(c: char): int {
    match c
    case 'P' => 100 case 'N' => 320 case 'B' => 330 case 'R' => 500 case 'Q' => 900 case 'K' => 20000
    case 'p' => -100 case 'n' => -320 case 'b' => -330 case 'r' => -500 case 'q' => -900 case 'k' => -20000
    case _ => 0
  }

  // The piece-square tables, indexed by square with 0 = a8.

  const PawnTable: seq<int> := [
          0,   0,   0,   0,   0,   0,   0,   0,
          5,  10,  10, -20, -20,  10,  10,   5,
          5,  -5, -10,   0,   0, -10,  -5,   5,
          0,   0,   0,  20,  20,   0,   0,   0,
          5,   5,  10,  25,  25,  10,   5,   5,
         10,  10,  20,  30,  30,  20,  10,  10,
         50,  50,  50,  50,  50,  50,  50,  50,
          0,   0,   0,   0,   0,   0,   0,   0
    ]

  const KnightTable: seq<int> := [
        -50, -40, -30, -30, -30, -30, -40, -50,
        -40, -20,   0,   0,   0,   0, -20, -40,
        -30,   0,  10,  15,  15,  10,   0, -30,
        -30,   5,  15,  20,  20,  15,   5, -30,
        -30,   0,  15,  20,  20,  15,   0, -30,
        -30,   5,  10,  15,  15,  10,   5, -30,
        -40, -20,   0,   5,   5,   0, -20, -40,
        -50, -40, -30, -30, -30, -30, -40, -50
    ]

  const BishopTable: seq<int> := [
        -20, -10, -10, -10, -10, -10, -10, -20,
        -10,   5,   0,   0,   0,   0,   5, -10,
        -10,  10,  10,  10,  10,  10,  10, -10,
        -10,   0,  10,  10,  10,  10,   0, -10,
        -10,   5,   5,  10,  10,   5,   5, -10,
        -10,   0,   5,  10,  10,   5,   0, -10,
        -10,   0,   0,   0,   0,   0,   0, -10,
        -20, -10, -10, -10, -10, -10, -10, -20
    ]

  const RookTable: seq<int> := [
          0,   0,   0,   5,   5,   0,   0,   0,
         -5,   0,   0,   0,   0,   0,   0,  -5,
         -5,   0,   0,   0,   0,   0,   0,  -5,
         -5,   0,   0,   0,   0,   0,   0,  -5,
         -5,   0,   0,   0,   0,   0,   0,  -5,
         -5,   0,   0,   0,   0,   0,   0,  -5,
          5,  10,  10,  10,  10,  10,  10,   5,
          0,   0,   0,   0,   0,   0,   0,   0
    ]

  const QueenTable: seq<int> := [
        -20, -10, -10,  -5,  -5, -10, -10, -20,
        -10,   0,   0,   0,   0,   0,   0, -10,
        -10,   0,   5,   5,   5,   5,   0, -10,
         -5,   0,   5,   5,   5,   5,   0,  -5,
          0,   0,   5,   5,   5,   5,   0,  -5,
        -10,   5,   5,   5,   5,   5,   0, -10,
        -10,   0,   5,   0,   0,   0,   0, -10,
        -20, -10, -10,  -5,  -5, -10, -10, -20
    ]

  const KingTable: seq<int> := [
        -30, -40, -40, -50, -50, -40, -40, -30,
        -30, -40, -40, -50, -50, -40, -40, -30,
        -30, -40, -40, -50, -50, -40, -40, -30,
        -30, -40, -40, -50, -50, -40, -40, -30,
        -20, -30, -30, -40, -40, -30, -30, -20,
        -10, -20, -20, -20, -20, -20, -20, -10,
         20,  20,   0,   0,   0,   0,  20,  20,
         20,  30,  10,   0,   0,  10,  30,  20
    ]

  /** PST.get(kind). */
  function Table(kind: char): (r: Option<seq<int>>)
    ensures r.Some? <==> IsWhitePiece(kind)
    ensures r.Some? ==> |r.value| == 64
  {
    match kind
    case 'P' => Some(PawnTable) case 'N' => Some(KnightTable) case 'B' => Some(BishopTable)
    case 'R' => Some(RookTable) case 'Q' => Some(QueenTable) case 'K' => Some(KingTable)
    case _ => None
  }

  /** pst_value: 0 for an empty cell or a letter without a table; the
      table entry at sq for White, the negated entry at 63 - sq for Black. */
  function PstValue(piece: char, sq: int): int
    requires 0 <= sq < 64
  {
    if piece == '.' then 0
    else
      var tbl := Table(Upper(piece));
      if tbl.None? then 0
      else if IsUpper(piece) then tbl.value[sq]
      else -tbl.value[63 - sq]
  }

  /** What the cell at square i adds to the score. */
  function CellScore(c: char, i: int): int
    requires 0 <= i < 64
  {
    if c == '.' then 0 else PieceValue(c) + PstValue(c, i)
  }

  /** The contribution of every square, in board order. */
  function CellScores(b: seq<char>): (r: seq<int>)
    requires |b| == 64
    ensures |r| == 64 && forall i :: 0 <= i < 64 ==> r[i] == CellScore(b[i], i)
  {
    seq(64, i requires 0 <= i < 64 => CellScore(b[i], i))
  }

  function Sum(xs: seq<int>): int {
    if xs == [] then 0 else Sum(xs[..|xs| - 1]) + xs[|xs| - 1]
  }

  /** evaluate on a board. */
  function Score(b: seq<char>): int
    requires |b| == 64
  {
    Sum(CellScores(b))
  }

  /** The board seen from the other side: square i holds the piece of
      square 63 - i in the other colour. */
  function Mirror(b: seq<char>): (r: seq<char>)
    requires |b| == 64
    ensures |r| == 64 && forall i :: 0 <= i < 64 ==> r[i] == SwapCase(b[63 - i])
  {
    seq(64, i requires 0 <= i < 64 => SwapCase(b[63 - i]))
  }

  // ---------------------------------------------------------------------
  // Sums

  lemma {:induction false} SumCons(x: int, xs: seq<int>)
    ensures Sum([x] + xs) == x + Sum(xs)
  {
    if xs != [] {
      assert ([x] + xs)[..|xs|] == [x] + xs[..|xs| - 1];
      SumCons(x, xs[..|xs| - 1]);
    }
  }

  /** Summing in reverse order gives the same total. */
  lemma {:induction false} SumReverse(xs: seq<int>, ys: seq<int>)
    requires |xs| == |ys| && forall i :: 0 <= i < |xs| ==> ys[i] == xs[|xs| - 1 - i]
    ensures Sum(ys) == Sum(xs)
  {
    if xs != [] {
      var n := |xs|;
      assert ys == [xs[n - 1]] + ys[1..];
      SumCons(xs[n - 1], ys[1..]);
      SumReverse(xs[..n - 1], ys[1..]);
    }
  }

  lemma {:induction false} SumNegate(xs: seq<int>, ys: seq<int>)
    requires |xs| == |ys| && forall i :: 0 <= i < |xs| ==> ys[i] == -xs[i]
    ensures Sum(ys) == -Sum(xs)
  {
    if xs != [] {
      var n := |xs|;
      SumNegate(xs[..n - 1], ys[..n - 1]);
    }
  }

  /** Summing the negated entries in reverse order gives the negated
      total. */
  lemma SumReverseNegate(xs: seq<int>, ys: seq<int>)
    requires |xs| == |ys| && forall i :: 0 <= i < |xs| ==> ys[i] == -xs[|xs| - 1 - i]
    ensures Sum(ys) == -Sum(xs)
  {
    var u := seq(|xs|, i requires 0 <= i < |xs| => -xs[i]);
    SumReverse(u, ys);
    SumNegate(xs, u);
  }

  lemma {:induction false} SumZeros(xs: seq<int>)
    requires forall i :: 0 <= i < |xs| ==> xs[i] == 0
    ensures Sum(xs) == 0
  {
    if xs != [] {
      SumZeros(xs[..|xs| - 1]);
    }
  }

  // ---------------------------------------------------------------------
  // Properties of the evaluation

  /** An empty board scores 0. */
  lemma EmptyBoardScoresZero()
    ensures Score(seq(64, _ => '.')) == 0
  {
    SumZeros(CellScores(seq(64, _ => '.')));
  }

  /** A piece and its other-colour twin on the half-turned square score
      opposite amounts. */
  lemma CellScoreMirror(c: char, i: int)
    requires IsCell(c) && 0 <= i < 64
    ensures CellScore(SwapCase(c), 63 - i) == -CellScore(c, i)
  {
    if c != '.' {
      PieceValueSwap(c);
      PstValueSwap(c, i);
    }
  }

  lemma PieceValueSwap(c: char)
    requires IsPiece(c)
    ensures PieceValue(SwapCase(c)) == -PieceValue(c)
  {
  }

  /** Black reads the table of the same kind at the half-turned square 63 - sq. */
  lemma PstValueSwap(c: char, i: int)
    requires IsPiece(c) && 0 <= i < 64
    ensures PstValue(SwapCase(c), 63 - i) == -PstValue(c, i)
  {
    var d := SwapCase(c);
    assert Upper(d) == Upper(c) && d != '.' && (IsUpper(d) <==> !IsUpper(c));
    assert IsWhitePiece(Upper(c));
  }

  lemma MirrorCell(b: seq<char>, i: int)
    requires |b| == 64 && (forall k :: 0 <= k < 64 ==> IsCell(b[k])) && 0 <= i < 64
    ensures CellScores(Mirror(b))[i] == -CellScores(b)[63 - i]
  {
    CellScoreMirror(b[63 - i], 63 - i);
  }

  /** Swapping every piece's colour and mirroring the board negates the
      score. */
  lemma ScoreMirror(b: seq<char>)
    requires |b| == 64 && forall i :: 0 <= i < 64 ==> IsCell(b[i])
    ensures Score(Mirror(b)) == -Score(b)
  {
    var s := CellScores(b);
    var t := CellScores(Mirror(b));
    forall i | 0 <= i < 64 ensures t[i] == -s[63 - i] {
      MirrorCell(b, i);
    }
    SumReverseNegate(s, t);
  }

  /** Changing one cell changes the score by the difference of the two
      cells' contributions. */
  lemma ScoreUpdate(b: seq<char>, i: int, c: char)
    requires |b| == 64 && 0 <= i < 64
    ensures Score(b[i := c]) == Score(b) - CellScore(b[i], i) + CellScore(c, i)
  {
    SumUpdate(CellScores(b), i, CellScore(c, i));
    assert CellScores(b[i := c]) == CellScores(b)[i := CellScore(c, i)];
  }

  lemma {:induction false} SumUpdate(xs: seq<int>, i: int, v: int)
    requires 0 <= i < |xs|
    ensures Sum(xs[i := v]) == Sum(xs) - xs[i] + v
  {
    var n := |xs|;
    if i < n - 1 {
      assert xs[i := v][..n - 1] == xs[..n - 1][i := v];
      SumUpdate(xs[..n - 1], i, v);
    } else {
      assert xs[i := v][..n - 1] == xs[..n - 1];
    }
  }

  // ---------------------------------------------------------------------
  // The engine's loop

  /** evaluate: the running total over the board, skipping empty cells. */
  method Evaluate(state: GameState) returns (score: int)
    requires state.Valid()
    ensures score == Score(state.board[..])
  {
    ghost var s := CellScores(state.board[..]);
    score := 0;
    for i := 0 to 64
      invariant score == Sum(s[..i])
    {
      var p := state.board[i];
      if p != '.' {
        score := score + PieceValue(p);
        score := score + PstValue(p, i);
      }
      assert s[..i + 1][..i] == s[..i];
    }
    assert s[..64] == s;
  }
}
