/** Move ordering. order_moves scores every move and sorts the (score,
    move) pairs by descending score with Python's stable sort; quiescence
    sorts its captures by descending material gain the same way. The
    centre-distance term abs(file - 3.5) + abs(rank - 3.5) is a multiple
    of 0.5, so the model scores every move at twice the engine's value:
    an exact integer that orders the moves the same way. */
module Ordering {
  import opened Common
  import opened Squares
  import opened Positions
  import opened Evaluation

  /** A move with its sort key. */
  datatype Scored = Scored(key: int, move: Move)

  predicate Descending(xs: seq<Scored>) {
    forall i, j :: 0 <= i < j < |xs| ==> xs[i].key >= xs[j].key
  }

  /** Insert x after every element whose key is at least x's, as a stable
      sort places a later element after earlier ones of equal key. */
  function Insert(x: Scored, xs: seq<Scored>): (r: seq<Scored>)
    ensures |r| == |xs| + 1
  {
    if xs == [] || xs[0].key < x.key then [x] + xs else [xs[0]] + Insert(x, xs[1..])
  }

  /** list.sort by descending key, stable. */
  function SortDesc(xs: seq<Scored>): (r: seq<Scored>)
    ensures |r| == |xs|
  {
    if xs == [] then [] else Insert(xs[|xs| - 1], SortDesc(xs[..|xs| - 1]))
  }

  function Strip(xs: seq<Scored>): (r: seq<Move>)
    ensures |r| == |xs| && forall i :: 0 <= i < |xs| ==> r[i] == xs[i].move
  {
    seq(|xs|, i requires 0 <= i < |xs| => xs[i].move)
  }

  /** Each move paired with its key. */
  function Keyed(moves: seq<Move>, key: Move -> int): (r: seq<Scored>)
    ensures |r| == |moves| && forall i :: 0 <= i < |moves| ==> r[i] == Scored(key(moves[i]), moves[i])
  {
    seq(|moves|, i requires 0 <= i < |moves| => Scored(key(moves[i]), moves[i]))
  }

  /** The moves sorted by descending key, ties in input order. */
  function SortByKey(moves: seq<Move>, key: Move -> int): seq<Move> {
    Strip(SortDesc(Keyed(moves, key)))
  }

  // ---------------------------------------------------------------------
  // The keys

  /** abs(PIECE_VALUES[captured]) - abs(PIECE_VALUES[piece]): the material
      a capture wins, the key quiescence sorts by. */
  function CaptureGain(m: Move): int {
    Abs(PieceValue(m.captured)) - Abs(PieceValue(m.piece))
  }

  /** Twice abs(file - 3.5) + abs(rank - 3.5) for the target square. */
  function CentreDistance2(sq: int): nat {
    Abs(2 * FileOf(sq) - 7) + Abs(2 * RankOf(sq) - 7)
  }

  /** Twice order_moves' score: the capture gain for a capture, 900 for a
      promotion, minus the distance of the target from the centre. */
  function MoveKey(m: Move): int {
    var gain := if m.captured != '.' then CaptureGain(m) else 0;
    var promo := if m.promotion.Some? then 900 else 0;
    2 * (gain + promo) - CentreDistance2(m.toSq)
  }

  /** order_moves on values. */
  function MoveOrder(moves: seq<Move>): seq<Move> {
    SortByKey(moves, MoveKey)
  }

  /** The order quiescence searches its captures in. */
  function CaptureOrder(moves: seq<Move>): seq<Move> {
    SortByKey(moves, CaptureGain)
  }

  // ---------------------------------------------------------------------
  // The sort

  lemma StripCons(a: Scored, xs: seq<Scored>)
    ensures Strip([a] + xs) == [a.move] + Strip(xs)
  {
  }

  lemma {:induction false} InsertMembers(x: Scored, xs: seq<Scored>)
    ensures forall y <- Insert(x, xs) :: y == x || y in xs
  {
    if xs != [] && xs[0].key >= x.key {
      InsertMembers(x, xs[1..]);
      assert xs == [xs[0]] + xs[1..];
    }
  }

  lemma {:induction false} InsertPermutes(x: Scored, xs: seq<Scored>)
    ensures multiset(Strip(Insert(x, xs))) == multiset(Strip(xs)) + multiset{x.move}
  {
    if xs != [] && xs[0].key >= x.key {
      InsertPermutes(x, xs[1..]);
      assert xs == [xs[0]] + xs[1..];
      StripCons(xs[0], Insert(x, xs[1..]));
      StripCons(xs[0], xs[1..]);
    } else {
      StripCons(x, xs);
    }
  }

  lemma {:induction false} InsertDescending(x: Scored, xs: seq<Scored>)
    requires Descending(xs)
    ensures Descending(Insert(x, xs))
  {
    if xs != [] && xs[0].key >= x.key {
      InsertDescending(x, xs[1..]);
      InsertMembers(x, xs[1..]);
      var r := Insert(x, xs[1..]);
      forall y | y in r ensures xs[0].key >= y.key {
        if y != x {
          var j :| 0 <= j < |xs[1..]| && xs[1..][j] == y;
          assert xs[j + 1] == y;
        }
      }
    }
  }

  /** Sorting yields the same moves, by descending key. */
  lemma {:induction false} SortDescProperties(xs: seq<Scored>)
    ensures Descending(SortDesc(xs))
    ensures forall y <- SortDesc(xs) :: y in xs
    ensures multiset(Strip(SortDesc(xs))) == multiset(Strip(xs))
  {
    if xs != [] {
      var init := xs[..|xs| - 1];
      var x := xs[|xs| - 1];
      SortDescProperties(init);
      InsertDescending(x, SortDesc(init));
      InsertMembers(x, SortDesc(init));
      InsertPermutes(x, SortDesc(init));
      assert xs == init + [x];
      assert Strip(xs) == Strip(init) + [x.move];
    }
  }

  /** An insertion after a run of keys no smaller than x's appends. */
  lemma {:induction false} InsertLast(x: Scored, xs: seq<Scored>)
    requires forall y <- xs :: y.key >= x.key
    ensures Insert(x, xs) == xs + [x]
  {
    if xs != [] {
      InsertLast(x, xs[1..]);
      assert xs == [xs[0]] + xs[1..];
    }
  }

  /** Stability: input already in descending order is left as it is. */
  lemma {:induction false} SortDescSorted(xs: seq<Scored>)
    requires Descending(xs)
    ensures SortDesc(xs) == xs
  {
    if xs != [] {
      var init := xs[..|xs| - 1];
      var x := xs[|xs| - 1];
      SortDescSorted(init);
      forall y | y in init ensures y.key >= x.key {
        var j :| 0 <= j < |init| && init[j] == y;
      }
      InsertLast(x, init);
      assert xs == init + [x];
    }
  }

  /** The elements of xs whose key is k, in their order. */
  function WithKey(xs: seq<Scored>, k: int): (r: seq<Scored>)
    ensures |r| <= |xs|
  {
    if xs == [] then [] else (if xs[0].key == k then [xs[0]] else []) + WithKey(xs[1..], k)
  }

  /** The moves whose key is k, in their order. */
  function OfKey(moves: seq<Move>, key: Move -> int, k: int): (r: seq<Move>)
    ensures |r| <= |moves|
  {
    if moves == [] then [] else (if key(moves[0]) == k then [moves[0]] else []) + OfKey(moves[1..], key, k)
  }

  lemma {:induction false} WithKeyAppend(a: seq<Scored>, b: seq<Scored>, k: int)
    ensures WithKey(a + b, k) == WithKey(a, k) + WithKey(b, k)
  {
    if a == [] {
      assert a + b == b;
    } else {
      var h := if a[0].key == k then [a[0]] else [];
      assert (a + b)[0] == a[0] && (a + b)[1..] == a[1..] + b;
      assert WithKey(a + b, k) == h + WithKey(a[1..] + b, k);
      WithKeyAppend(a[1..], b, k);
      assert WithKey(a, k) == h + WithKey(a[1..], k);
      assert h + (WithKey(a[1..], k) + WithKey(b, k)) == (h + WithKey(a[1..], k)) + WithKey(b, k);
    }
  }

  lemma {:induction false} WithKeyNone(xs: seq<Scored>, k: int)
    requires forall y <- xs :: y.key < k
    ensures WithKey(xs, k) == []
  {
    if xs != [] {
      assert xs[0] in xs;
      assert forall y <- xs[1..] :: y in xs;
      WithKeyNone(xs[1..], k);
    }
  }

  /** Inserting into a descending list puts x after every element of its
      own key. */
  lemma {:induction false} InsertKeepsTies(x: Scored, xs: seq<Scored>, k: int)
    requires Descending(xs)
    ensures WithKey(Insert(x, xs), k) == WithKey(xs, k) + (if x.key == k then [x] else [])
  {
    if xs == [] || xs[0].key < x.key {
      assert ([x] + xs)[1..] == xs;
      if x.key == k {
        forall y | y in xs ensures y.key < k {
          var j :| 0 <= j < |xs| && xs[j] == y;
        }
        WithKeyNone(xs, k);
      }
    } else {
      var t := xs[1..];
      InsertKeepsTies(x, t, k);
      var h := if xs[0].key == k then [xs[0]] else [];
      var r := [xs[0]] + Insert(x, t);
      assert r[0] == xs[0] && r[1..] == Insert(x, t);
      assert WithKey(r, k) == h + WithKey(Insert(x, t), k);
    }
  }

  /** Stability: elements of equal key leave the sort in their input order. */
  lemma {:induction false} SortDescStable(xs: seq<Scored>, k: int)
    ensures WithKey(SortDesc(xs), k) == WithKey(xs, k)
  {
    if xs != [] {
      var init := xs[..|xs| - 1];
      var x := xs[|xs| - 1];
      SortDescStable(init, k);
      SortDescProperties(init);
      InsertKeepsTies(x, SortDesc(init), k);
      assert xs == init + [x];
      WithKeyAppend(init, [x], k);
      assert [x][1..] == [];
    }
  }

  lemma StripAppend(a: seq<Scored>, b: seq<Scored>)
    ensures Strip(a + b) == Strip(a) + Strip(b)
  {
    assert forall i :: 0 <= i < |a| ==> (a + b)[i] == a[i];
    assert forall i :: |a| <= i < |a + b| ==> (a + b)[i] == b[i - |a|];
  }

  lemma {:induction false} StripWithKey(ys: seq<Scored>, key: Move -> int, k: int)
    requires forall y <- ys :: y.key == key(y.move)
    ensures OfKey(Strip(ys), key, k) == Strip(WithKey(ys, k))
  {
    if ys != [] {
      var y, t := ys[0], ys[1..];
      assert forall z <- t :: z in ys;
      StripWithKey(t, key, k);
      var st := Strip(ys);
      assert st[0] == y.move && st[1..] == Strip(t);
      var h := if y.key == k then [y] else [];
      assert OfKey(st, key, k) == Strip(h) + OfKey(Strip(t), key, k);
      StripAppend(h, WithKey(t, k));
    }
  }

  /** SortByKey is stable: the moves of any one key come out in the order
      they went in. */
  lemma SortByKeyKeepsTies(moves: seq<Move>, key: Move -> int, k: int)
    ensures OfKey(SortByKey(moves, key), key, k) == OfKey(moves, key, k)
  {
    var ks := Keyed(moves, key);
    SortDescProperties(ks);
    SortDescStable(ks, k);
    assert forall y <- ks :: y.key == key(y.move);
    StripWithKey(ks, key, k);
    StripWithKey(SortDesc(ks), key, k);
    assert Strip(ks) == moves;
  }

  /** SortByKey is a permutation of its input, in descending key order. */
  lemma SortByKeyProperties(moves: seq<Move>, key: Move -> int)
    ensures multiset(SortByKey(moves, key)) == multiset(moves)
    ensures var r := SortByKey(moves, key);
      forall i, j :: 0 <= i < j < |r| ==> key(r[i]) >= key(r[j])
  {
    var ks := Keyed(moves, key);
    SortDescProperties(ks);
    assert Strip(ks) == moves;
    var s := SortDesc(ks);
    forall i | 0 <= i < |s| ensures s[i].key == key(s[i].move) {
      assert s[i] in ks;
    }
  }

  /** Moves whose keys already descend keep their order. */
  lemma SortByKeyStable(moves: seq<Move>, key: Move -> int)
    requires forall i, j :: 0 <= i < j < |moves| ==> key(moves[i]) >= key(moves[j])
    ensures SortByKey(moves, key) == moves
  {
    SortDescSorted(Keyed(moves, key));
  }

  /** order_moves returns its input reordered: captures of valuable
      pieces, promotions and central targets first. */
  lemma MoveOrderPermutes(moves: seq<Move>)
    ensures multiset(MoveOrder(moves)) == multiset(moves)
    ensures var r := MoveOrder(moves);
      forall i, j :: 0 <= i < j < |r| ==> MoveKey(r[i]) >= MoveKey(r[j])
  {
    SortByKeyProperties(moves, MoveKey);
  }

  /** The captures quiescence searches, most profitable first. */
  lemma CaptureOrderPermutes(moves: seq<Move>)
    ensures multiset(CaptureOrder(moves)) == multiset(moves)
    ensures var r := CaptureOrder(moves);
      forall i, j :: 0 <= i < j < |r| ==> CaptureGain(r[i]) >= CaptureGain(r[j])
  {
    SortByKeyProperties(moves, CaptureGain);
  }
}
