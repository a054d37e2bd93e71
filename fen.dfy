/** Forsyth-Edwards Notation: the six space-separated fields
    board / side to move / castling / en-passant target / halfmove clock /
    fullmove number, with the board written rank 8 to rank 1, files a to h,
    runs of empty squares as a digit. */
module Fen {
  import opened Common
  import opened Text
  import opened Pieces

  /** What fen_to_board returns: the board cells and the other five fields. */
  datatype FenRecord = FenRecord(board: seq<char>, activeColor: string, castling: string,
                                 enpassant: string, halfmove: int, fullmove: int)

  /** IndexError (fewer than four fields) and ValueError (a clock that is
      not an integer). */
  datatype FenError = MissingField | BadNumber

  function Dots(n: nat): (s: seq<char>)
    ensures |s| == n && forall k :: 0 <= k < n ==> s[k] == '.'
  {
    seq(n, _ => '.')
  }

  /** One character of a board row: a digit stands for that many empty cells. */
  function ExpandChar(c: char): seq<char> {
    if IsDigit(c) then Dots(DigitValue(c)) else [c]
  }

  /** The cells a board row denotes, read left to right. */
  function ExpandRow(row: string): seq<char> {
    if row == [] then [] else ExpandRow(row[..|row| - 1]) + ExpandChar(row[|row| - 1])
  }

  /** The cells of all rows, one row after the other. */
  function ExpandRows(rows: seq<string>): seq<char> {
    if rows == [] then [] else ExpandRows(rows[..|rows| - 1]) + ExpandRow(rows[|rows| - 1])
  }

  /** fen_to_board. The board field is expanded row by row without any
      check of its shape; fields 5 and 6 default to 0 and 1. */
  function ParseFen(fen: string): (r: Result<FenRecord, FenError>)
    ensures |Split(fen)| < 4 <==> r == Err(MissingField)
    ensures r.Ok? ==> r.value.activeColor == Split(fen)[1] && r.value.castling == Split(fen)[2]
                      && r.value.enpassant == Split(fen)[3]
    ensures |Split(fen)| == 4 ==> r.Ok? && r.value.halfmove == 0 && r.value.fullmove == 1
    ensures |Split(fen)| >= 5 ==>
              (r.Ok? <==> (ParseInt(Split(fen)[4]).Some? && (|Split(fen)| == 5 || ParseInt(Split(fen)[5]).Some?)))
    ensures r.Ok? && |Split(fen)| >= 5 ==> r.value.halfmove == ParseInt(Split(fen)[4]).value
    ensures r.Ok? && |Split(fen)| == 5 ==> r.value.fullmove == 1
    ensures r.Ok? && |Split(fen)| >= 6 ==> r.value.fullmove == ParseInt(Split(fen)[5]).value
    ensures r.Ok? ==> r.value.board == ExpandRows(SplitOn(Split(fen)[0], '/'))
  {
    var fields := Split(fen);
    if |fields| < 4 then Err(MissingField)
    else
      var board := ExpandRows(SplitOn(fields[0], '/'));
      var half := if |fields| > 4 then ParseInt(fields[4]) else Some(0);
      var full := if |fields| > 5 then ParseInt(fields[5]) else Some(1);
      if half.None? || full.None? then Err(BadNumber)
      else Ok(FenRecord(board, fields[1], fields[2], fields[3], half.value, full.value))
  }

  /** The text an empty-run count of `empty` flushes: nothing for zero. */
  function RunText(empty: nat): string {
    if empty > 0 then IntToString(empty) else ""
  }

  /** The text of one board row given the cells still to write and the
      length of the run of empty cells seen so far. */
  function EncodeRow(cells: seq<char>, empty: nat): string {
    if cells == [] then RunText(empty)
    else if cells[0] == '.' then EncodeRow(cells[1..], empty + 1)
    else RunText(empty) + [cells[0]] + EncodeRow(cells[1..], 0)
  }

  function RowText(board: seq<char>, r: nat): string
    requires r < 8 && |board| >= 64
  {
    EncodeRow(board[r * 8..r * 8 + 8], 0)
  }

  function BoardRows(board: seq<char>): (rows: seq<string>)
    requires |board| >= 64
    ensures |rows| == 8
  {
    seq(8, r requires 0 <= r < 8 => RowText(board, r))
  }

  /** board_to_fen. */
  function EncodeFen(rec: FenRecord): string
    requires |rec.board| >= 64
  {
    JoinWith([JoinWith(BoardRows(rec.board), '/'), rec.activeColor, rec.castling, rec.enpassant,
              IntToString(rec.halfmove), IntToString(rec.fullmove)], ' ')
  }

  /** A record that board_to_fen can write and fen_to_board read back:
      64 legal cells and non-empty, space-free text fields. */
  predicate Encodable(rec: FenRecord) {
    && |rec.board| == 64
    && (forall k :: 0 <= k < 64 ==> IsCell(rec.board[k]))
    && rec.activeColor != [] && NoSpace(rec.activeColor)
    && rec.castling != [] && NoSpace(rec.castling)
    && rec.enpassant != [] && NoSpace(rec.enpassant)
  }

  // ---------------------------------------------------------------------
  // The imperative forms, as the source builds its results by loops.
  // ---------------------------------------------------------------------

  /** fen_to_board as written: split the fields, then extend the board
      cell by cell, then read the remaining fields. */
  method FenToBoard(fen: string) returns (r: Result<FenRecord, FenError>)
    ensures r == ParseFen(fen)
  {
    var fields := Split(fen);
    if |fields| == 0 {
      return Err(MissingField);
    }
    var rows := SplitOn(fields[0], '/');
    var board: seq<char> := [];
    for i := 0 to |rows|
      invariant board == ExpandRows(rows[..i])
    {
      board := ExtendByRow(board, rows[i]);
      ExpandRowsSnoc(rows, i);
    }
    assert rows[..|rows|] == rows;
    if |fields| < 4 {
      return Err(MissingField);
    }
    var half := 0;
    if |fields| > 4 {
      var h := ParseInt(fields[4]);
      if h.None? {
        return Err(BadNumber);
      }
      half := h.value;
    }
    var full := 1;
    if |fields| > 5 {
      var f := ParseInt(fields[5]);
      if f.None? {
        return Err(BadNumber);
      }
      full := f.value;
    }
    r := Ok(FenRecord(board, fields[1], fields[2], fields[3], half, full));
  }

  /** The inner loop of fen_to_board: a digit adds that many empty cells,
      any other character is added as it is. */
  method ExtendByRow(board: seq<char>, row: string) returns (r: seq<char>)
    ensures r == board + ExpandRow(row)
  {
    r := board;
    for j := 0 to |row|
      invariant r == board + ExpandRow(row[..j])
    {
      var ch := row[j];
      ExpandRowSnoc(row, j);
      if IsDigit(ch) {
        r := r + Dots(DigitValue(ch));
      } else {
        r := r + [ch];
      }
    }
    assert row[..|row|] == row;
  }

  /** board_to_fen as written: each row is built cell by cell, flushing
      the count of empty cells before a piece and at the end of the row. */
  method BoardToFen(rec: FenRecord) returns (fen: string)
    requires |rec.board| >= 64
    ensures fen == EncodeFen(rec)
  {
    var board := rec.board;
    var rows: seq<string> := [];
    for r := 0 to 8
      invariant |rows| == r
      invariant forall k :: 0 <= k < r ==> rows[k] == RowText(board, k)
    {
      var row := RowToText(board, r);
      rows := rows + [row];
    }
    assert rows == BoardRows(board);
    var pos := JoinWith(rows, '/');
    fen := JoinWith([pos, rec.activeColor, rec.castling, rec.enpassant,
                     IntToString(rec.halfmove), IntToString(rec.fullmove)], ' ');
  }

  lemma ExpandRowSnoc(row: string, j: nat)
    requires j < |row|
    ensures ExpandRow(row[..j + 1]) == ExpandRow(row[..j]) + ExpandChar(row[j])
  {
    assert row[..j + 1][..j] == row[..j];
  }

  lemma ExpandRowsSnoc(rows: seq<string>, i: nat)
    requires i < |rows|
    ensures ExpandRows(rows[..i + 1]) == ExpandRows(rows[..i]) + ExpandRow(rows[i])
  {
    assert rows[..i + 1][..i] == rows[..i];
  }

  /** One step of EncodeRow at position f of the row, with the text
      already written in front. */
  lemma EncodeRowStep(cells: seq<char>, f: nat, empty: nat, row: string)
    requires f < |cells|
    ensures cells[f] == '.' ==>
      row + EncodeRow(cells[f..], empty) == row + EncodeRow(cells[f + 1..], empty + 1)
    ensures cells[f] != '.' ==>
      row + EncodeRow(cells[f..], empty) == (row + RunText(empty) + [cells[f]]) + EncodeRow(cells[f + 1..], 0)
  {
    assert cells[f..][0] == cells[f];
    assert cells[f..][1..] == cells[f + 1..];
  }

  /** The inner loop of board_to_fen for row r: empty cells are counted
      and the count is written before the next piece and at the row's end. */
  method RowToText(board: seq<char>, r: nat) returns (row: string)
    requires r < 8 && |board| >= 64
    ensures row == RowText(board, r)
  {
    var cells := board[r * 8..r * 8 + 8];
    row := "";
    var empty: nat := 0;
    for f := 0 to 8
      invariant row + EncodeRow(cells[f..], empty) == EncodeRow(cells, 0)
    {
      var c := cells[f];
      EncodeRowStep(cells, f, empty, row);
      if c == '.' {
        empty := empty + 1;
      } else {
        ghost var next := row + RunText(empty) + [c];
        if empty > 0 {
          row := row + IntToString(empty);
          empty := 0;
        } else {
          assert row + RunText(empty) == row;
        }
        row := row + [c];
        assert row == next;
      }
    }
    assert cells[8..] == [];
    if empty > 0 {
      row := row + IntToString(empty);
    }
  }

  // ---------------------------------------------------------------------
  // Round trip
  // ---------------------------------------------------------------------

  lemma {:induction false} ExpandRowConcat(a: string, b: string)
    ensures ExpandRow(a + b) == ExpandRow(a) + ExpandRow(b)
    decreases |b|
  {
    if b != [] {
      var b' := b[..|b| - 1];
      assert (a + b)[..|a + b| - 1] == a + b';
      assert (a + b)[|a + b| - 1] == b[|b| - 1];
      ExpandRowConcat(a, b');
    } else {
      assert a + b == a;
    }
  }

  lemma ExpandSmallNumber(n: nat)
    requires 0 < n < 10
    ensures ExpandRow(IntToString(n)) == Dots(n)
  {
    assert IntToString(n) == [DigitChar(n)];
    assert IntToString(n)[..0] == [];
  }

  lemma ExpandRunText(empty: nat)
    requires empty < 10
    ensures ExpandRow(RunText(empty)) == Dots(empty)
  {
    if empty > 0 {
      ExpandSmallNumber(empty);
    }
  }

  lemma ExpandPiece(c: char)
    requires IsPiece(c)
    ensures ExpandRow([c]) == [c]
  {
    assert [c][..0] == [];
  }

  /** Reading back a written row (with `empty` blanks pending) gives the
      blanks and the cells. */
  lemma {:induction false} ExpandEncodeRow(cells: seq<char>, empty: nat)
    requires empty + |cells| <= 9
    requires forall k :: 0 <= k < |cells| ==> IsCell(cells[k])
    ensures ExpandRow(EncodeRow(cells, empty)) == Dots(empty) + cells
    decreases |cells|
  {
    if cells == [] {
      if empty > 0 {
        ExpandSmallNumber(empty);
      }
    } else {
      var rest := cells[1..];
      assert forall k :: 0 <= k < |rest| ==> IsCell(rest[k]) by {
        forall k | 0 <= k < |rest| ensures IsCell(rest[k]) {
          assert rest[k] == cells[k + 1];
        }
      }
      if cells[0] == '.' {
        ExpandEncodeRow(rest, empty + 1);
        BlankThenRest(cells, empty);
      } else {
        ExpandEncodeRow(rest, 0);
        PieceThenRest(cells, empty);
      }
    }
  }

  lemma BlankThenRest(cells: seq<char>, empty: nat)
    requires cells != [] && cells[0] == '.'
    requires ExpandRow(EncodeRow(cells[1..], empty + 1)) == Dots(empty + 1) + cells[1..]
    ensures ExpandRow(EncodeRow(cells, empty)) == Dots(empty) + cells
  {
    assert EncodeRow(cells, empty) == EncodeRow(cells[1..], empty + 1);
    assert Dots(empty + 1) + cells[1..] == Dots(empty) + cells;
  }

  /** The cells of three row texts one after the other. */
  lemma {:induction false} ExpandConcat3(a: string, b: string, r: string, xa: seq<char>, xb: seq<char>, xr: seq<char>)
    requires ExpandRow(a) == xa && ExpandRow(b) == xb && ExpandRow(r) == xr
    ensures ExpandRow(a + b + r) == xa + (xb + xr)
  {
    var ab := a + b;
    assert ExpandRow(ab) == xa + xb by {
      ExpandRowConcat(a, b);
    }
    assert ExpandRow(ab + r) == (xa + xb) + xr by {
      ExpandRowConcat(ab, r);
    }
    assert (xa + xb) + xr == xa + (xb + xr);
  }

  lemma {:induction false} ExpandPieceRun(c: char, rest: string, x: seq<char>, empty: nat)
    requires IsPiece(c) && empty < 10 && ExpandRow(rest) == x
    ensures ExpandRow(RunText(empty) + [c] + rest) == Dots(empty) + ([c] + x)
  {
    ExpandRunText(empty);
    ExpandPiece(c);
    ExpandConcat3(RunText(empty), [c], rest, Dots(empty), [c], x);
  }


  lemma {:induction false} PieceThenRest(cells: seq<char>, empty: nat)
    requires cells != [] && IsPiece(cells[0]) && empty < 10
    requires ExpandRow(EncodeRow(cells[1..], 0)) == cells[1..]
    ensures ExpandRow(EncodeRow(cells, empty)) == Dots(empty) + cells
  {
    var c, x := cells[0], cells[1..];
    assert cells == [c] + x;
    EncodePiece(c, x, empty);
    ExpandPieceRun(c, EncodeRow(x, 0), x, empty);
  }





  /** Every character of a written row is a cell letter or a digit. */
  lemma {:induction false} EncodeRowChars(cells: seq<char>, empty: nat)
    requires forall k :: 0 <= k < |cells| ==> IsCell(cells[k])
    ensures forall k :: 0 <= k < |EncodeRow(cells, empty)| ==>
              IsPiece(EncodeRow(cells, empty)[k]) || IsDigit(EncodeRow(cells, empty)[k]) || EncodeRow(cells, empty)[k] == '-'
    decreases |cells|
  {
    if cells != [] {
      EncodeRowChars(cells[1..], if cells[0] == '.' then empty + 1 else 0);
    }
  }

  lemma {:induction false} ExpandRowsPrefix(board: seq<char>, n: nat)
    requires |board| == 64 && n <= 8
    requires forall k :: 0 <= k < 64 ==> IsCell(board[k])
    ensures ExpandRows(BoardRows(board)[..n]) == board[..n * 8]
  {
    if n > 0 {
      var rows := BoardRows(board);
      calc {
        ExpandRows(rows[..n]);
        { ExpandRowsSnoc(rows, n - 1); }
        ExpandRows(rows[..n - 1]) + ExpandRow(rows[n - 1]);
        { ExpandRowsPrefix(board, n - 1); RowTextExpands(board, n - 1); }
        board[..(n - 1) * 8] + board[(n - 1) * 8..n * 8];
        board[..n * 8];
      }
    }
  }

  /** Each encoded row expands back to its eight cells. */
  lemma RowTextExpands(board: seq<char>, r: nat)
    requires |board| == 64 && r < 8
    requires forall k :: 0 <= k < 64 ==> IsCell(board[k])
    ensures ExpandRow(RowText(board, r)) == board[r * 8..r * 8 + 8]
  {
    var cells := board[r * 8..r * 8 + 8];
    assert forall k :: 0 <= k < |cells| ==> IsCell(cells[k]) by {
      forall k | 0 <= k < |cells| ensures IsCell(cells[k]) {
        assert cells[k] == board[r * 8 + k];
      }
    }
    ExpandEncodeRow(cells, 0);
    assert Dots(0) + cells == cells;
  }

  lemma NoSpaceConcat(a: string, b: string)
    requires NoSpace(a) && NoSpace(b)
    ensures NoSpace(a + b)
  {
    forall k | 0 <= k < |a + b| ensures !IsSpace((a + b)[k]) {
      if k < |a| {
        assert (a + b)[k] == a[k];
      } else {
        assert (a + b)[k] == b[k - |a|];
      }
    }
  }

  lemma {:induction false} JoinWithChars(parts: seq<string>, sep: char)
    requires forall p <- parts :: NoSpace(p)
    requires !IsSpace(sep)
    ensures NoSpace(JoinWith(parts, sep))
  {
    if |parts| > 1 {
      forall u | u in parts[1..] ensures NoSpace(u) {
        var k :| 0 <= k < |parts[1..]| && parts[1..][k] == u;
        assert parts[k + 1] == u && parts[k + 1] in parts;
      }
      JoinWithChars(parts[1..], sep);
      assert parts[0] in parts;
      NoSpaceConcat(parts[0], [sep]);
      NoSpaceConcat(parts[0] + [sep], JoinWith(parts[1..], sep));
    } else if |parts| == 1 {
      assert parts[0] in parts;
    }
  }

  function FenTokens(rec: FenRecord): seq<string>
    requires |rec.board| >= 64
  {
    [JoinWith(BoardRows(rec.board), '/'), rec.activeColor, rec.castling, rec.enpassant,
     IntToString(rec.halfmove), IntToString(rec.fullmove)]
  }

  lemma RowsArePlain(rec: FenRecord)
    requires Encodable(rec)
    ensures forall p <- BoardRows(rec.board) :: NoSpace(p) && '/' !in p
  {
    var rows := BoardRows(rec.board);
    forall r | 0 <= r < 8 ensures NoSpace(rows[r]) && '/' !in rows[r] {
      var cells := rec.board[r * 8..r * 8 + 8];
      assert forall k :: 0 <= k < |cells| ==> IsCell(cells[k]) by {
        forall k | 0 <= k < |cells| ensures IsCell(cells[k]) {
          assert cells[k] == rec.board[r * 8 + k];
        }
      }
      EncodeRowChars(cells, 0);
      assert rows[r] == EncodeRow(cells, 0);
      forall k | 0 <= k < |rows[r]| ensures rows[r][k] != '/' && !IsSpace(rows[r][k]) {
      }
    }
  }

  lemma SplitEncodeFen(rec: FenRecord)
    requires Encodable(rec)
    ensures Split(EncodeFen(rec)) == FenTokens(rec)
  {
    var rows := BoardRows(rec.board);
    RowsArePlain(rec);
    JoinWithChars(rows, '/');
    var pos := JoinWith(rows, '/');
    assert pos == rows[0] + ['/'] + JoinWith(rows[1..], '/');
    assert pos != [];
    SplitJoin(FenTokens(rec));
  }

  lemma BoardFieldRoundTrip(rec: FenRecord)
    requires Encodable(rec)
    ensures ExpandRows(SplitOn(JoinWith(BoardRows(rec.board), '/'), '/')) == rec.board
  {
    var rows := BoardRows(rec.board);
    RowsArePlain(rec);
    SplitOnJoin(rows, '/');
    ExpandRowsPrefix(rec.board, 8);
    assert rows[..8] == rows;
    assert rec.board[..64] == rec.board;
  }

  /** fen_to_board(board_to_fen(r)) == r for every encodable record. */
  lemma FenRoundTrip(rec: FenRecord)
    requires Encodable(rec)
    ensures ParseFen(EncodeFen(rec)) == Ok(rec)
  {
    var fields := Split(EncodeFen(rec));
    SplitEncodeFen(rec);
    assert fields == FenTokens(rec);
    BoardFieldRoundTrip(rec);
    ParseIntToString(rec.halfmove);
    ParseIntToString(rec.fullmove);
  }

  // ---------------------------------------------------------------------
  // Canonical FEN text
  // ---------------------------------------------------------------------

  /** A board row as board_to_fen writes it: piece letters and run digits
      1 to 9, never two digits in a row (`afterDigit` says whether the
      previous character was a digit). */
  predicate CanonRow(t: string, afterDigit: bool)
    decreases |t|
  {
    || t == []
    || (IsPiece(t[0]) && CanonRow(t[1..], false))
    || ('1' <= t[0] <= '9' && !afterDigit && CanonRow(t[1..], true))
  }

  /** A number field as str() writes it. */
  predicate CanonInt(t: string) {
    ParseInt(t).Some? && IntToString(ParseInt(t).value) == t
  }

  /** A board field as board_to_fen writes it: eight '/'-separated
      canonical rows of eight cells each. */
  predicate CanonBoard(field: string) {
    && |SplitOn(field, '/')| == 8
    && forall row <- SplitOn(field, '/') :: CanonRow(row, false) && |ExpandRow(row)| == 8
  }

  /** The fields of a FEN string as board_to_fen writes them: six of
      them, a canonical board field, and both clocks as str() writes
      them. */
  predicate CanonFields(f: seq<string>) {
    |f| == 6 && CanonBoard(f[0]) && CanonInt(f[4]) && CanonInt(f[5])
  }

  /** The FEN strings board_to_fen writes: canonical fields separated by
      single spaces. */
  predicate CanonicalFen(fen: string) {
    CanonFields(Split(fen)) && fen == JoinWith(Split(fen), ' ')
  }

  lemma {:induction false} ExpandRowCons(c: char, t: string)
    ensures ExpandRow([c] + t) == ExpandChar(c) + ExpandRow(t)
  {
    ExpandRowConcat([c], t);
    assert [c][..0] == [];
  }

  /** A run of n blanks lengthens the pending run by n. */
  lemma {:induction false} EncodeDots(n: nat, cells: seq<char>, empty: nat)
    ensures EncodeRow(Dots(n) + cells, empty) == EncodeRow(cells, empty + n)
    decreases n
  {
    if n > 0 {
      var s := Dots(n) + cells;
      assert s[0] == '.';
      assert s[1..] == Dots(n - 1) + cells;
      EncodeDots(n - 1, cells, empty + 1);
    } else {
      assert Dots(0) + cells == cells;
    }
  }

  /** Writing a piece flushes the pending run, then writes the piece. */
  lemma {:induction false} EncodePiece(c: char, x: seq<char>, empty: nat)
    requires c != '.'
    ensures EncodeRow([c] + x, empty) == RunText(empty) + [c] + EncodeRow(x, 0)
  {
    assert ([c] + x)[0] == c && ([c] + x)[1..] == x;
  }

  /** A piece in front of a row that writes back as itself is written
      after the pending run. */
  lemma {:induction false} PieceStep(t: string, empty: nat)
    requires t != [] && IsPiece(t[0])
    requires EncodeRow(ExpandRow(t[1..]), 0) == t[1..]
    ensures EncodeRow(ExpandRow(t), empty) == RunText(empty) + t
  {
    var c := t[0];
    assert t == [c] + t[1..];
    ExpandRowCons(c, t[1..]);
    EncodePiece(c, ExpandRow(t[1..]), empty);
  }

  /** A digit in front of a row is read as a run, and written back as the
      same digit. */
  lemma {:induction false} DigitStep(t: string)
    requires t != [] && '1' <= t[0] <= '9'
    requires EncodeRow(ExpandRow(t[1..]), DigitValue(t[0])) == RunText(DigitValue(t[0])) + t[1..]
    ensures EncodeRow(ExpandRow(t), 0) == t
  {
    var c := t[0];
    var d := DigitValue(c);
    assert t == [c] + t[1..];
    ExpandRowCons(c, t[1..]);
    EncodeDots(d, ExpandRow(t[1..]), 0);
    assert RunText(d) == [c];
  }

  /** Writing out the cells a canonical row denotes gives the row back,
      after the pending run. */
  lemma {:induction false} EncodeExpandRow(t: string, empty: nat)
    requires CanonRow(t, empty > 0)
    ensures EncodeRow(ExpandRow(t), empty) == RunText(empty) + t
    decreases |t|
  {
    if t == [] {
      assert ExpandRow(t) == [];
    } else if IsPiece(t[0]) {
      EncodeExpandRow(t[1..], 0);
      PieceStep(t, empty);
    } else {
      EncodeExpandRow(t[1..], DigitValue(t[0]));
      DigitStep(t);
    }
  }

  /** The cells a canonical row denotes are board cells. */
  lemma {:induction false} CanonRowCells(t: string, afterDigit: bool)
    requires CanonRow(t, afterDigit)
    ensures forall k :: 0 <= k < |ExpandRow(t)| ==> IsCell(ExpandRow(t)[k])
    decreases |t|
  {
    if t != [] {
      assert t == [t[0]] + t[1..];
      ExpandRowCons(t[0], t[1..]);
      CanonRowCells(t[1..], !IsPiece(t[0]));
    }
  }

  /** A slice inside the left operand of a concatenation. */
  lemma {:induction false} SliceOfLeft(a: seq<char>, c: seq<char>, lo: nat, hi: nat)
    requires lo <= hi <= |a|
    ensures (a + c)[lo..hi] == a[lo..hi]
  {
  }

  /** Appending a row of eight cells to rows that lie eight cells apart
      keeps them eight cells apart. */
  lemma {:induction false} EightsStep(rows: seq<string>)
    requires rows != [] && |ExpandRow(rows[|rows| - 1])| == 8
    requires |ExpandRows(rows[..|rows| - 1])| == 8 * (|rows| - 1)
    requires forall i :: 0 <= i < |rows| - 1 ==>
               ExpandRows(rows[..|rows| - 1])[8 * i..8 * i + 8] == ExpandRow(rows[..|rows| - 1][i])
    ensures |ExpandRows(rows)| == 8 * |rows|
    ensures forall i :: 0 <= i < |rows| ==> ExpandRows(rows)[8 * i..8 * i + 8] == ExpandRow(rows[i])
  {
    var n := |rows| - 1;
    var init := rows[..n];
    var a := ExpandRows(init);
    var last := ExpandRow(rows[n]);
    var b := ExpandRows(rows);
    assert b == a + last;
    forall i | 0 <= i < |rows| ensures b[8 * i..8 * i + 8] == ExpandRow(rows[i]) {
      if i < n {
        assert rows[i] == init[i];
        SliceOfLeft(a, last, 8 * i, 8 * i + 8);
      } else {
        assert b[8 * i..8 * i + 8] == b[|a|..];
      }
    }
  }

  /** Rows of eight cells each lie one after the other in the board. */
  lemma {:induction false} ExpandRowsEights(rows: seq<string>)
    requires forall row <- rows :: |ExpandRow(row)| == 8
    ensures |ExpandRows(rows)| == 8 * |rows|
    ensures forall i :: 0 <= i < |rows| ==> ExpandRows(rows)[8 * i..8 * i + 8] == ExpandRow(rows[i])
    decreases |rows|
  {
    if rows != [] {
      var init := rows[..|rows| - 1];
      assert forall row <- init :: row in rows;
      ExpandRowsEights(init);
      assert rows[|rows| - 1] in rows;
      EightsStep(rows);
    }
  }

  /** board_to_fen writes every row canonically. */
  lemma {:induction false} EncodeRowCanon(cells: seq<char>, empty: nat)
    requires empty + |cells| <= 9
    requires forall k :: 0 <= k < |cells| ==> IsCell(cells[k])
    ensures CanonRow(EncodeRow(cells, empty), false)
    decreases |cells|
  {
    if cells == [] {
      if empty > 0 {
        var t := RunText(empty);
        assert t == [DigitChar(empty)];
        assert t[1..] == [];
      }
    } else if cells[0] == '.' {
      EncodeRowCanon(cells[1..], empty + 1);
    } else {
      var c := cells[0];
      var rest := EncodeRow(cells[1..], 0);
      EncodeRowCanon(cells[1..], 0);
      var tail := [c] + rest;
      assert tail[1..] == rest;
      assert CanonRow(tail, true) && CanonRow(tail, false);
      if empty > 0 {
        var t := RunText(empty) + tail;
        assert RunText(empty) == [DigitChar(empty)];
        assert t[1..] == tail;
      } else {
        assert RunText(empty) + tail == tail;
      }
      assert EncodeRow(cells, empty) == RunText(empty) + tail;
    }
  }

  /** Row r that board_to_fen writes is canonical and denotes eight
      cells. */
  lemma {:induction false} RowCanonical(rec: FenRecord, r: nat)
    requires Encodable(rec) && r < 8
    ensures CanonRow(RowText(rec.board, r), false) && |ExpandRow(RowText(rec.board, r))| == 8
  {
    var cells := rec.board[r * 8..r * 8 + 8];
    assert forall k :: 0 <= k < |cells| ==> IsCell(cells[k]) by {
      forall k | 0 <= k < |cells| ensures IsCell(cells[k]) {
        assert cells[k] == rec.board[r * 8 + k];
      }
    }
    EncodeRowCanon(cells, 0);
    ExpandEncodeRow(cells, 0);
    assert Dots(0) + cells == cells;
  }

  /** Every board board_to_fen writes is canonical. */
  lemma EncodeBoardCanonical(rec: FenRecord)
    requires Encodable(rec)
    ensures CanonBoard(JoinWith(BoardRows(rec.board), '/'))
  {
    var rows := BoardRows(rec.board);
    RowsArePlain(rec);
    SplitOnJoin(rows, '/');
    forall r | 0 <= r < 8 ensures CanonRow(rows[r], false) && |ExpandRow(rows[r])| == 8 {
      RowCanonical(rec, r);
    }
  }


  /** Everything board_to_fen writes is canonical. */
  lemma EncodeFenCanonical(rec: FenRecord)
    requires Encodable(rec)
    ensures CanonicalFen(EncodeFen(rec))
  {
    SplitEncodeFen(rec);
    EncodeBoardCanonical(rec);
    ParseIntToString(rec.halfmove);
    ParseIntToString(rec.fullmove);
    assert CanonFields(FenTokens(rec));
  }

  /** The cells a canonical board field denotes are 64 board cells. */
  lemma {:induction false} CanonBoardCells(field: string)
    requires CanonBoard(field)
    ensures var b := ExpandRows(SplitOn(field, '/'));
      |b| == 64 && forall k :: 0 <= k < 64 ==> IsCell(b[k])
  {
    var rows := SplitOn(field, '/');
    ExpandRowsEights(rows);
    var b := ExpandRows(rows);
    forall k | 0 <= k < 64 ensures IsCell(b[k]) {
      var i := k / 8;
      assert rows[i] in rows;
      CanonRowCells(rows[i], false);
      assert b[k] == b[8 * i..8 * i + 8][k - 8 * i];
    }
  }

  /** board_to_fen writes the rows of a canonical board field back. */
  lemma {:induction false} CanonBoardRows(field: string)
    requires CanonBoard(field)
    ensures |ExpandRows(SplitOn(field, '/'))| == 64
    ensures BoardRows(ExpandRows(SplitOn(field, '/'))) == SplitOn(field, '/')
  {
    var rows := SplitOn(field, '/');
    ExpandRowsEights(rows);
    var b := ExpandRows(rows);
    forall i | 0 <= i < 8 ensures BoardRows(b)[i] == rows[i] {
      assert rows[i] in rows;
      EncodeExpandRow(rows[i], 0);
      assert RowText(b, i) == EncodeRow(ExpandRow(rows[i]), 0);
    }
  }

  /** A canonical board field denotes 64 cells that board_to_fen writes
      back as the same field. */
  lemma CanonBoardRoundTrip(field: string)
    requires CanonBoard(field)
    ensures var b := ExpandRows(SplitOn(field, '/'));
      && |b| == 64 && (forall k :: 0 <= k < 64 ==> IsCell(b[k]))
      && JoinWith(BoardRows(b), '/') == field
  {
    CanonBoardCells(field);
    CanonBoardRows(field);
    JoinSplitOn(field, '/');
  }


  /** The fields board_to_fen writes for `rec` are `f` when each part
      of the record writes as the matching field. */
  lemma TokensOfFields(rec: FenRecord, f: seq<string>)
    requires |rec.board| >= 64 && |f| == 6
    requires JoinWith(BoardRows(rec.board), '/') == f[0]
    requires rec.activeColor == f[1] && rec.castling == f[2] && rec.enpassant == f[3]
    requires IntToString(rec.halfmove) == f[4] && IntToString(rec.fullmove) == f[5]
    ensures FenTokens(rec) == f
  {
  }

  /** Every canonical FEN string reads as an encodable record that
      board_to_fen writes back exactly: with FenRoundTrip and
      EncodeFenCanonical, fen_to_board and board_to_fen are inverse
      bijections between encodable records and canonical strings. */
  lemma FenCanonical(fen: string)
    requires CanonicalFen(fen)
    ensures ParseFen(fen).Ok? && Encodable(ParseFen(fen).value)
    ensures EncodeFen(ParseFen(fen).value) == fen
  {
    var f := Split(fen);
    var b := ExpandRows(SplitOn(f[0], '/'));
    CanonBoardRoundTrip(f[0]);
    var rec := FenRecord(b, f[1], f[2], f[3], ParseInt(f[4]).value, ParseInt(f[5]).value);
    ParseSixFields(fen);
    assert Encodable(rec) by {
      assert f[1] in f && f[2] in f && f[3] in f;
    }
    TokensOfFields(rec, f);
  }

  /** fen_to_board of six fields with integer clocks. */
  lemma ParseSixFields(fen: string)
    requires |Split(fen)| == 6 && ParseInt(Split(fen)[4]).Some? && ParseInt(Split(fen)[5]).Some?
    ensures var f := Split(fen);
      ParseFen(fen) == Ok(FenRecord(ExpandRows(SplitOn(f[0], '/')), f[1], f[2], f[3],
                                    ParseInt(f[4]).value, ParseInt(f[5]).value))
  {
  }
}
