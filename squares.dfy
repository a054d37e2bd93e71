/** Square geometry. A square is an index 0..63 with 0 = a8, 7 = h8,
    56 = a1 and 63 = h1: the "rank" index counts rows from the top
    (row 0 holds rank 8) and the file index counts a..h as 0..7. */
module Squares {
  import opened Common

  predicate OnBoard(i: int) { 0 <= i < 64 }

  /** Python's i % 8 and i // 8 (floor semantics), used on any integer. */
  function FileOf(i: int): int { PyMod8(i) }

  function RankOf(i: int): int { PyDiv8(i) }

  function PyMod8(i: int): (r: int)
    ensures 0 <= r < 8
  {
    i % 8
  }

  function PyDiv8(i: int): (r: int)
    ensures 8 * r + PyMod8(i) == i
  {
    i / 8
  }

  function Abs(x: int): (r: nat)
    ensures r == x || r == -x
  {
    if x < 0 then -x else x
  }

  /** Squares eight apart are on the same file. */
  lemma FileOfVertical(i: int)
    ensures FileOf(i + 8) == FileOf(i) && FileOf(i - 8) == FileOf(i)
  {
    assert (i + 8) % 8 == i % 8;
    assert (i - 8) % 8 == i % 8;
  }

  /** A sideways step of one file keeps to the next file unless it wraps
      round the edge of the board, where the file index jumps by 7. */
  lemma FileOfSide(i: int, df: int)
    requires df == -1 || df == 1
    ensures 0 <= FileOf(i) + df < 8 ==> FileOf(i + df) == FileOf(i) + df
    ensures !(0 <= FileOf(i) + df < 8) ==> Abs(FileOf(i + df) - FileOf(i)) == 7
  {
    var q, r := i / 8, i % 8;
    if 0 <= r + df < 8 {
      assert i + df == 8 * q + (r + df);
    } else if df == 1 {
      assert i + df == 8 * (q + 1);
    } else {
      assert i + df == 8 * (q - 1) + 7;
    }
  }

  /** A two-character algebraic name "a1".."h8". */
  predicate IsSquareName(s: string) {
    |s| == 2 && 'a' <= s[0] <= 'h' && '1' <= s[1] <= '8'
  }

  /** sq_to_coords: the index named by the first two characters of `s`
      (file letter, rank digit). A non-digit rank character is the caller's
      ValueError and is excluded here; out-of-board names give
      out-of-board indices, as in the source. */
  function SqToCoords(s: string): (r: int)
    requires |s| >= 2 && IsDigit(s[1])
    ensures IsSquareName(s[..2]) ==> OnBoard(r) && FileOf(r) == s[0] as int - 'a' as int
    ensures IsSquareName(s[..2]) ==> RankOf(r) == 8 - DigitValue(s[1])
  {
    var file := s[0] as int - 'a' as int;
    var rank := 8 - DigitValue(s[1]);
    rank * 8 + file
  }

  /** idx_to_sq: the algebraic name of an on-board index. */
  function IdxToSq(i: int): (r: string)
    requires OnBoard(i)
    ensures IsSquareName(r)
  {
    var rank := 8 - i / 8;
    var file := i % 8;
    [('a' as int + file) as char, DigitChar(rank)]
  }

  /** Reading back the name of an on-board index gives the index. */
  lemma IndexRoundTrip(i: int)
    requires OnBoard(i)
    ensures SqToCoords(IdxToSq(i)) == i
  {
  }

  /** Naming a square and reading the name back gives the name again. */
  lemma SquareNameRoundTrip(s: string)
    requires IsSquareName(s)
    ensures OnBoard(SqToCoords(s)) && IdxToSq(SqToCoords(s)) == s
  {
    var i := SqToCoords(s);
    assert s[..2] == s;
    var t := IdxToSq(i);
    IndexRoundTrip(i);
    assert t[0] == s[0] && t[1] == s[1];
  }
}
