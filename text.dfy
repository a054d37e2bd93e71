/** The string built-ins the engine's text formats rely on: str.split()
    (whitespace fields), str.strip(), str.split(sep), str.join, str(int)
    and int(str),
    each with the round trip that makes a printed record readable again. */
module Text {
  import opened Common

  predicate NoSpace(t: string) {
    forall k :: 0 <= k < |t| ==> !IsSpace(t[k])
  }

  predicate AllDigits(t: string) {
    forall k :: 0 <= k < |t| ==> IsDigit(t[k])
  }

  /** Length of the leading run of non-whitespace characters. */
  function TokenLen(s: string): (n: nat)
    ensures n <= |s| && NoSpace(s[..n])
    ensures n < |s| ==> IsSpace(s[n])
  {
    if s == [] || IsSpace(s[0]) then 0 else 1 + TokenLen(s[1..])
  }

  /** str.split() with no argument: the maximal runs of non-whitespace
      characters, in order. */
  function Split(s: string): (fields: seq<string>)
    ensures forall t <- fields :: t != [] && NoSpace(t)
    decreases |s|
  {
    if s == [] then []
    else if IsSpace(s[0]) then Split(s[1..])
    else
      var n := TokenLen(s);
      [s[..n]] + Split(s[n..])
  }

  /** sep.join(parts) for a one-character separator. */
  function JoinWith(parts: seq<string>, sep: char): string
  {
    if |parts| == 0 then ""
    else if |parts| == 1 then parts[0]
    else parts[0] + [sep] + JoinWith(parts[1..], sep)
  }

  /** Index of the first `c` in `s`, or |s| when there is none. */
  function IndexOf(s: string, c: char): (n: nat)
    ensures n <= |s|
    ensures forall k :: 0 <= k < n ==> s[k] != c
    ensures n < |s| ==> s[n] == c
  {
    if s == [] then 0 else if s[0] == c then 0 else 1 + IndexOf(s[1..], c)
  }

  /** s.split(sep): the pieces between separators, empty pieces included;
      there is always at least one piece. */
  function SplitOn(s: string, sep: char): (parts: seq<string>)
    ensures |parts| >= 1
    ensures forall p <- parts :: sep !in p
    decreases |s|
  {
    var n := IndexOf(s, sep);
    if n == |s| then [s] else [s[..n]] + SplitOn(s[n + 1..], sep)
  }

  /** Value of a string of decimal digits (most significant first). */
  function DigitsValue(s: string): (v: nat)
    requires AllDigits(s)
  {
    if s == [] then 0 else 10 * DigitsValue(s[..|s| - 1]) + DigitValue(s[|s| - 1])
  }

  /** str(n) for n >= 0. */
  function NatToString(n: nat): (s: string)
    ensures |s| >= 1 && AllDigits(s) && DigitsValue(s) == n
  {
    if n < 10 then [DigitChar(n)]
    else
      var s := NatToString(n / 10) + [DigitChar(n % 10)];
      assert s[..|s| - 1] == NatToString(n / 10);
      s
  }

  /** str(n). */
  function IntToString(n: int): (s: string)
    ensures |s| >= 1 && NoSpace(s) && '/' !in s
  {
    if n < 0 then "-" + NatToString(-n) else NatToString(n)
  }

  /** The digit groups int() accepts: digits with single underscores
      between them ("1_000"), so non-empty, starting and ending with a
      digit, and with no two underscores in a row. */
  predicate Grouped(t: string) {
    && t != [] && IsDigit(t[0]) && IsDigit(t[|t| - 1])
    && (forall k :: 0 <= k < |t| ==> IsDigit(t[k]) || t[k] == '_')
    && (forall k :: 0 <= k < |t| - 1 ==> t[k] == '_' ==> t[k + 1] != '_')
  }

  /** The digits of t with the underscores dropped. */
  function Ungroup(t: string): (d: string)
    requires forall k :: 0 <= k < |t| ==> IsDigit(t[k]) || t[k] == '_'
    ensures AllDigits(d) && |d| <= |t|
    ensures t != [] && IsDigit(t[|t| - 1]) ==> d != []
    ensures AllDigits(t) ==> d == t
  {
    if t == [] then []
    else
      var c := t[|t| - 1];
      var d := Ungroup(t[..|t| - 1]) + (if c == '_' then [] else [c]);
      assert AllDigits(t) ==> t[..|t| - 1] + [c] == t;
      d
  }

  /** The text after an optional leading sign. */
  function Unsigned(s: string): string {
    if |s| >= 1 && (s[0] == '-' || s[0] == '+') then s[1..] else s
  }

  /** int(s) for a token: an optional sign and digit groups; anything
      else is Python's ValueError (None). The value is the digits read in
      decimal, negated after a '-'. */
  function ParseInt(s: string): (r: Option<int>)
    ensures r.Some? <==> Grouped(Unsigned(s))
    ensures r.Some? ==> |s| >= 1
    ensures r.Some? ==> var v: int := DigitsValue(Ungroup(Unsigned(s)));
              r.value == if s[0] == '-' then -v else v
  {
    if |s| >= 1 && (s[0] == '-' || s[0] == '+') then
      var body := s[1..];
      if Grouped(body) then
        var v: int := DigitsValue(Ungroup(body));
        Some(if s[0] == '-' then -v else v)
      else None
    else if Grouped(s) then Some(DigitsValue(Ungroup(s)))
    else None
  }

  /** int() reads underscore-grouped digits. */
  lemma ParseIntGrouping()
    ensures ParseInt("1_0") == Some(10)
  {
    var t := "1_0";
    assert t[0] == '1' && t[1] == '_' && t[2] == '0';
    assert Unsigned(t) == t;
    assert Grouped(t);
    assert t[..2] == "1_" && "1_"[..1] == "1";
    assert Ungroup("1") == "1";
    assert Ungroup("1_") == "1";
    assert Ungroup(t) == "1" + "0";
    assert "10"[..1] == "1";
    assert DigitsValue("1") == 1;
    assert DigitsValue("10") == 10;
  }

  /** int() refuses a leading, trailing or doubled underscore. */
  lemma ParseIntBadGrouping()
    ensures ParseInt("1__0").None? && ParseInt("_1").None? && ParseInt("1_").None?
  {
    assert "1__0"[1] == '_' && "1__0"[2] == '_';
    assert "_1"[0] == '_';
    assert "1_"[1] == '_';
  }

  /** int(str(n)) == n. */
  lemma ParseIntToString(n: int)
    ensures ParseInt(IntToString(n)) == Some(n)
  {
    var s := IntToString(n);
    if n < 0 {
      assert s[1..] == NatToString(-n);
      assert Grouped(s[1..]);
    } else {
      assert s == NatToString(n);
      assert Grouped(s);
    }
  }

  /** sep.join(s.split(sep)) == s. */
  lemma {:induction false} JoinSplitOn(s: string, sep: char)
    ensures JoinWith(SplitOn(s, sep), sep) == s
    decreases |s|
  {
    var n := IndexOf(s, sep);
    if n < |s| {
      var rest := SplitOn(s[n + 1..], sep);
      JoinSplitOn(s[n + 1..], sep);
      var parts := SplitOn(s, sep);
      assert parts == [s[..n]] + rest;
      assert parts[1..] == rest;
      assert s == s[..n] + [sep] + s[n + 1..];
    }
  }

  lemma {:induction false} TokenLenConcat(t: string, u: string)
    requires NoSpace(t)
    requires u == [] || IsSpace(u[0])
    ensures TokenLen(t + u) == |t|
  {
    if t != [] {
      assert (t + u)[1..] == t[1..] + u;
      TokenLenConcat(t[1..], u);
    }
  }

  /** Splitting a space-joined list of non-empty, space-free tokens gives
      the tokens back. */
  lemma {:induction false} SplitJoin(tokens: seq<string>)
    requires |tokens| >= 1
    requires forall t <- tokens :: t != [] && NoSpace(t)
    ensures Split(JoinWith(tokens, ' ')) == tokens
  {
    var t := tokens[0];
    if |tokens| == 1 {
      TokenLenConcat(t, []);
      assert t + [] == t;
      assert t[|t|..] == [];
    } else {
      var rest := JoinWith(tokens[1..], ' ');
      var s := t + [' '] + rest;
      assert s == t + ([' '] + rest);
      TokenLenConcat(t, [' '] + rest);
      assert s[..|t|] == t;
      assert s[|t|..] == [' '] + rest;
      assert Split([' '] + rest) == Split(rest) by {
        assert ([' '] + rest)[1..] == rest;
      }
      forall u | u in tokens[1..] ensures u != [] && NoSpace(u) {
        var k :| 0 <= k < |tokens[1..]| && tokens[1..][k] == u;
        assert tokens[k + 1] == u && tokens[k + 1] in tokens;
      }
      SplitJoin(tokens[1..]);
      assert tokens == [t] + tokens[1..];
    }
  }

  lemma {:induction false} IndexOfConcat(p: string, sep: char, rest: string)
    requires sep !in p
    ensures IndexOf(p + [sep] + rest, sep) == |p|
  {
    if p != [] {
      assert (p + [sep] + rest)[1..] == p[1..] + [sep] + rest;
      IndexOfConcat(p[1..], sep, rest);
    }
  }

  /** Splitting a joined list of separator-free parts gives the parts back. */
  lemma {:induction false} SplitOnJoin(parts: seq<string>, sep: char)
    requires |parts| >= 1
    requires forall p <- parts :: sep !in p
    ensures SplitOn(JoinWith(parts, sep), sep) == parts
  {
    var p := parts[0];
    if |parts| == 1 {
      forall k | 0 <= k < |p| ensures p[k] != sep {
        assert p[k] in p;
      }
    } else {
      var rest := JoinWith(parts[1..], sep);
      var s := p + [sep] + rest;
      IndexOfConcat(p, sep, rest);
      assert s[..|p|] == p;
      assert s[|p| + 1..] == rest;
      forall u | u in parts[1..] ensures sep !in u {
        var k :| 0 <= k < |parts[1..]| && parts[1..][k] == u;
        assert parts[k + 1] == u && parts[k + 1] in parts;
      }
      SplitOnJoin(parts[1..], sep);
      assert parts == [p] + parts[1..];
    }
  }

  // ---------------------------------------------------------------------
  // str.strip()

  /** The string without its leading whitespace: a suffix of s that starts
      with a non-space, all of whose dropped characters are spaces. */
  function StripLeft(s: string): (t: string)
    ensures |t| <= |s| && t == s[|s| - |t|..]
    ensures t != [] ==> !IsSpace(t[0])
    ensures forall k :: 0 <= k < |s| - |t| ==> IsSpace(s[k])
  {
    if s != [] && IsSpace(s[0]) then StripLeft(s[1..]) else s
  }

  /** The string without its trailing whitespace: a prefix of s that ends
      with a non-space, all of whose dropped characters are spaces. */
  function StripRight(s: string): (t: string)
    ensures |t| <= |s| && t == s[..|t|]
    ensures t != [] ==> !IsSpace(t[|t| - 1])
    ensures forall k :: |t| <= k < |s| ==> IsSpace(s[k])
  {
    if s != [] && IsSpace(s[|s| - 1]) then StripRight(s[..|s| - 1]) else s
  }

  /** str.strip() with no argument. */
  function StripSpace(s: string): string {
    StripRight(StripLeft(s))
  }

  /** The stripped string is the part of s between a leading and a
      trailing run of spaces, and neither starts nor ends with a space. */
  lemma {:induction false} StripSpaceShape(s: string)
    ensures var t := StripSpace(s);
      var i := |s| - |StripLeft(s)|;
      && (t == [] || (!IsSpace(t[0]) && !IsSpace(t[|t| - 1])))
      && i + |t| <= |s| && t == s[i..i + |t|]
      && (forall k :: 0 <= k < i ==> IsSpace(s[k]))
      && (forall k :: i + |t| <= k < |s| ==> IsSpace(s[k]))
  {
    var l := StripLeft(s);
    var t := StripRight(l);
    var i := |s| - |l|;
    assert l == s[i..];
    assert t == l[..|t|];
    assert s[i..][..|t|] == s[i..i + |t|];
    forall k | i + |t| <= k < |s| ensures IsSpace(s[k]) {
      assert s[k] == l[k - i];
    }
  }

  /** A string that neither starts nor ends with a space is its own strip;
      in particular strip() is idempotent. */
  lemma StripSpaceKeeps(s: string)
    requires s == [] || (!IsSpace(s[0]) && !IsSpace(s[|s| - 1]))
    ensures StripSpace(s) == s
  {
  }

  lemma StripSpaceIdempotent(s: string)
    ensures StripSpace(StripSpace(s)) == StripSpace(s)
  {
    StripSpaceShape(s);
    StripSpaceKeeps(StripSpace(s));
  }
}
