/** Board cells and colours. A cell is '.' (empty) or one of the letters
    PNBRQK (white) / pnbrqk (black); colours are the strings "w" and "b". */
module Pieces {
  import opened Common

  /** One of the twelve piece letters. */
  predicate IsPiece(c: char) {
    IsWhitePiece(c) || c == 'p' || c == 'n' || c == 'b' || c == 'r' || c == 'q' || c == 'k'
  }

  /** One of the six upper-case piece letters, which also name the kinds. */
  predicate IsWhitePiece(c: char) {
    c == 'P' || c == 'N' || c == 'B' || c == 'R' || c == 'Q' || c == 'K'
  }

  predicate IsCell(c: char) {
    c == '.' || IsPiece(c)
  }

  /** color_of: None for an empty cell, "w" for an upper-case letter and
      "b" for anything else. */
  function ColorOf(p: char): (r: Option<string>)
    ensures r == None <==> p == '.'
    ensures IsPiece(p) ==> (r == Some("w") <==> IsUpper(p))
  {
    if p == '.' then None else if IsUpper(p) then Some("w") else Some("b")
  }

  /** The side that is not `color` ('b' if color == 'w' else 'w'). */
  function Opponent(color: string): (r: string)
    ensures color == "w" || color == "b" ==> (r == "w" || r == "b") && r != color
  {
    if color == "w" then "b" else "w"
  }

  /** The same piece in the other colour. */
  function SwapCase(c: char): (r: char)
    ensures IsPiece(c) ==> IsPiece(r) && Upper(r) == Upper(c) && (IsUpper(r) <==> !IsUpper(c))
  {
    if IsUpper(c) then Lower(c) else if IsLower(c) then Upper(c) else c
  }

  /** Swapping colours twice gives the piece back. */
  lemma SwapCaseTwice(c: char)
    requires IsCell(c)
    ensures SwapCase(SwapCase(c)) == c
  {
  }
}
