/** The XOR position hash of GameState.compute_zobrist. Python XORs
    arbitrary-precision integers; the model uses naturals with bitwise
    exclusive or. The random key table itself is a parameter: any function
    from keys to naturals. */
module Zobrist {
  import opened Positions

  /** Bitwise exclusive or of two naturals (Python's `^` on non-negative ints). */
  function Xor(a: nat, b: nat): (r: nat)
    decreases a + b
  {
    if a == 0 then b
    else if b == 0 then a
    else 2 * Xor(a / 2, b / 2) + (if a % 2 != b % 2 then 1 else 0)
  }

  /** The bit-by-bit reading of Xor, including when an operand is 0. */
  lemma XorBits(a: nat, b: nat)
    ensures Xor(a, b) == 2 * Xor(a / 2, b / 2) + (if a % 2 != b % 2 then 1 else 0)
  {
    if a == 0 {
      assert Xor(a / 2, b / 2) == b / 2;
      assert b == 2 * (b / 2) + b % 2;
    } else if b == 0 {
      assert a / 2 == 0 || Xor(a / 2, b / 2) == a / 2;
      assert a == 2 * (a / 2) + a % 2;
    }
  }

  lemma {:induction false} XorComm(a: nat, b: nat)
    ensures Xor(a, b) == Xor(b, a)
    decreases a + b
  {
    if a != 0 && b != 0 {
      XorComm(a / 2, b / 2);
    }
  }

  lemma {:induction false} XorSelf(a: nat)
    ensures Xor(a, a) == 0
  {
    if a != 0 {
      XorSelf(a / 2);
    }
  }

  lemma {:induction false} XorAssoc(a: nat, b: nat, c: nat)
    ensures Xor(Xor(a, b), c) == Xor(a, Xor(b, c))
    decreases a + b + c
  {
    if a == 0 || b == 0 || c == 0 {
      if c == 0 {
        assert Xor(Xor(a, b), c) == Xor(a, b);
      }
    } else {
      var ab, bc := Xor(a, b), Xor(b, c);
      XorBits(a, b);
      XorBits(b, c);
      XorBits(ab, c);
      XorBits(a, bc);
      assert ab / 2 == Xor(a / 2, b / 2);
      assert bc / 2 == Xor(b / 2, c / 2);
      XorAssoc(a / 2, b / 2, c / 2);
    }
  }

  /** x ^ a ^ a ^ c == x ^ c: replacing one contribution by another. */
  lemma XorReplace(x: nat, a: nat, c: nat)
    ensures Xor(Xor(Xor(x, a), a), c) == Xor(x, c)
  {
    XorAssoc(x, a, a);
    XorSelf(a);
  }

  /** The entries of the key table: a piece on a square, black to move, a
      castling right letter, and the file of the en-passant target. */
  datatype Key = PieceSquare(piece: char, sq: int) | SideToMove | CastleRight(right: char) | EpFile(file: int)

  type KeyTable = Key -> nat

  /** The contribution of one cell: nothing for an empty cell. */
  function CellKey(keys: KeyTable, c: char, sq: int): nat {
    if c == '.' then 0 else keys(PieceSquare(c, sq))
  }

  /** XOR of the keys of the occupied cells, square i at index i. */
  function BoardHash(keys: KeyTable, b: seq<char>): nat {
    if |b| == 0 then 0 else Xor(BoardHash(keys, b[..|b| - 1]), CellKey(keys, b[|b| - 1], |b| - 1))
  }

  /** XOR of the keys of the castling letters, '-' contributing nothing. */
  function CastlingHash(keys: KeyTable, s: string): nat {
    if |s| == 0 then 0
    else Xor(CastlingHash(keys, s[..|s| - 1]), if s[|s| - 1] != '-' then keys(CastleRight(s[|s| - 1])) else 0)
  }

  function SideHash(keys: KeyTable, color: string): nat {
    if color == "b" then keys(SideToMove) else 0
  }

  function EpHash(keys: KeyTable, ep: string): nat
    requires ValidEnpassant(ep)
  {
    if ep != "-" then keys(EpFile(ep[0] as int - 'a' as int)) else 0
  }

  /** compute_zobrist on a position. */
  function Hash(keys: KeyTable, p: Position): nat
    requires WellFormed(p)
  {
    Xor(Xor(Xor(BoardHash(keys, p.board), SideHash(keys, p.activeColor)),
            CastlingHash(keys, p.castling)),
        EpHash(keys, p.enpassant))
  }

  /** The incremental form the fold allows: changing one cell changes the
      board hash by the keys of the old and the new occupant. */
  lemma {:induction false} BoardHashUpdate(keys: KeyTable, b: seq<char>, i: int, c: char)
    requires 0 <= i < |b|
    ensures BoardHash(keys, b[i := c]) == Xor(Xor(BoardHash(keys, b), CellKey(keys, b[i], i)), CellKey(keys, c, i))
  {
    var n := |b| - 1;
    var b' := b[i := c];
    var oldKey, newKey := CellKey(keys, b[i], i), CellKey(keys, c, i);
    if i == n {
      assert b'[..n] == b[..n];
      XorReplace(BoardHash(keys, b[..n]), oldKey, newKey);
    } else {
      assert b'[..n] == b[..n][i := c];
      assert b[..n][i] == b[i];
      BoardHashUpdate(keys, b[..n], i, c);
      var x, last := BoardHash(keys, b[..n]), CellKey(keys, b[n], n);
      assert CellKey(keys, b'[n], n) == last;
      XorRotate(x, oldKey, newKey, last);
    }
  }

  /** ((x ^ a) ^ c) ^ l == ((x ^ l) ^ a) ^ c */
  lemma XorRotate(x: nat, a: nat, c: nat, l: nat)
    ensures Xor(Xor(Xor(x, a), c), l) == Xor(Xor(Xor(x, l), a), c)
  {
    calc {
      Xor(Xor(Xor(x, a), c), l);
      { XorAssoc(Xor(x, a), c, l); }
      Xor(Xor(x, a), Xor(c, l));
      { XorComm(c, l); }
      Xor(Xor(x, a), Xor(l, c));
      { XorAssoc(Xor(x, a), l, c); }
      Xor(Xor(Xor(x, a), l), c);
      { XorAssoc(x, a, l); XorComm(a, l); XorAssoc(x, l, a); }
      Xor(Xor(Xor(x, l), a), c);
    }
  }

  /** For a plain move (no promotion, en passant or castle) the board hash
      after push_move is the old one with the captured piece taken off the
      target, the mover put there and taken off its origin: the incremental
      update push_move's comment mentions and does not use. */
  lemma PlainMoveHash(keys: KeyTable, p: Position, m: Move)
    requires |p.board| == 64 && InRange(m) && m.fromSq != m.toSq
    requires m.promotion.None? && !m.isEnpassant && !m.isCastle
    requires p.board[m.fromSq] == m.piece && p.board[m.toSq] == m.captured && m.piece != '.'
    ensures BoardHash(keys, ApplyBoard(p.board, m)) ==
            Xor(Xor(Xor(BoardHash(keys, p.board), CellKey(keys, m.captured, m.toSq)),
                        CellKey(keys, m.piece, m.toSq)),
                    CellKey(keys, m.piece, m.fromSq))
  {
    var b1 := p.board[m.toSq := m.piece];
    BoardHashUpdate(keys, p.board, m.toSq, m.piece);
    assert b1[m.fromSq] == m.piece;
    BoardHashUpdate(keys, b1, m.fromSq, '.');
    assert ApplyBoard(p.board, m) == b1[m.fromSq := '.'];
  }
}
