/**
 * The JavaScript string operations the destination browser relies on:
 * `trim`, `toLowerCase`, `includes`, `split` on a character class, `join`,
 * and the digit scanning behind `parseInt`/`parseFloat`.
 */
module Text {
  import opened Seqs

  /** The characters of ECMAScript's WhiteSpace and LineTerminator productions (`\s`, `trim`). */
  predicate IsWhitespace(c: char) {
    || c == ' ' || c == '\t' || c == '\n' || c == '\r' || c == '\U{000B}' || c == '\U{000C}'
    || c == '\U{00A0}' || c == '\U{1680}' || ('\U{2000}' <= c <= '\U{200A}')
    || c == '\U{2028}' || c == '\U{2029}' || c == '\U{202F}' || c == '\U{205F}'
    || c == '\U{3000}' || c == '\U{FEFF}'
  }

  function TrimStart(s: string): (r: string)
    ensures |r| <= |s|
  {
    if s != [] && IsWhitespace(s[0]) then TrimStart(s[1..]) else s
  }

  function TrimEnd(s: string): (r: string)
    ensures |r| <= |s|
  {
    if s != [] && IsWhitespace(s[|s| - 1]) then TrimEnd(s[..|s| - 1]) else s
  }

  /** `s.trim()`. */
  function Trim(s: string): string {
    TrimEnd(TrimStart(s))
  }

  predicate AllWhitespace(s: string) {
    forall i :: 0 <= i < |s| ==> IsWhitespace(s[i])
  }

  lemma {:induction false} TrimStartEmpty(s: string)
    ensures TrimStart(s) == [] <==> AllWhitespace(s)
  {
    if s != [] && IsWhitespace(s[0]) {
      TrimStartEmpty(s[1..]);
      assert forall i :: 0 < i < |s| ==> s[i] == s[1..][i - 1];
    }
  }

  lemma {:induction false} TrimEndEmpty(s: string)
    ensures TrimEnd(s) == [] <==> AllWhitespace(s)
  {
    if s != [] && IsWhitespace(s[|s| - 1]) {
      TrimEndEmpty(s[..|s| - 1]);
    }
  }

  lemma {:induction false} TrimStartKeepsNonBlank(s: string)
    requires !AllWhitespace(s)
    ensures !AllWhitespace(TrimStart(s))
  {
    TrimStartEmpty(s);
    var t := TrimStart(s);
    assert t != [] && !IsWhitespace(t[0]) by {
      TrimStartFront(s);
    }
  }

  lemma {:induction false} TrimStartFront(s: string)
    ensures TrimStart(s) == [] || !IsWhitespace(TrimStart(s)[0])
  {
    if s != [] && IsWhitespace(s[0]) {
      TrimStartFront(s[1..]);
    }
  }

  /** `!s.trim()` holds exactly for strings made only of white space (the empty string included). */
  lemma TrimEmptyIffBlank(s: string)
    ensures Trim(s) == [] <==> AllWhitespace(s)
  {
    TrimStartEmpty(s);
    TrimEndEmpty(TrimStart(s));
    if !AllWhitespace(s) {
      TrimStartKeepsNonBlank(s);
    }
  }

  /** `toLowerCase` on one character; only the ASCII letters are case-mapped in this model. */
  function LowerChar(c: char): char {
    if 'A' <= c <= 'Z' then (c as int - 'A' as int + 'a' as int) as char else c
  }

  /** `s.toLowerCase()`. */
  function Lower(s: string): (r: string)
    ensures |r| == |s|
  {
    seq(|s|, i requires 0 <= i < |s| => LowerChar(s[i]))
  }

  lemma LowerAppend(a: string, b: string)
    ensures Lower(a + b) == Lower(a) + Lower(b)
  {
    assert forall i :: 0 <= i < |a| + |b| ==> Lower(a + b)[i] == (Lower(a) + Lower(b))[i];
  }

  /** `hay.includes(needle)`: `needle` occurs in `hay` as a contiguous piece. */
  predicate Contains(hay: string, needle: string)
    decreases |hay|
  {
    needle <= hay || (hay != [] && Contains(hay[1..], needle))
  }

  lemma {:induction false} ContainsAfter(a: string, s: string, t: string)
    requires Contains(s, t)
    ensures Contains(a + s, t)
    decreases |a|
  {
    if a == [] {
      assert a + s == s;
    } else {
      ContainsAfter(a[1..], s, t);
      assert (a + s)[1..] == a[1..] + s;
    }
  }

  lemma {:induction false} ContainsBefore(s: string, b: string, t: string)
    requires Contains(s, t)
    ensures Contains(s + b, t)
    decreases |s|
  {
    if !(t <= s) {
      ContainsBefore(s[1..], b, t);
      assert (s + b)[1..] == s[1..] + b;
    }
  }

  /** A piece found in `s` is found wherever `s` is embedded. */
  lemma ContainsInside(a: string, s: string, b: string, t: string)
    requires Contains(s, t)
    ensures Contains(a + s + b, t)
  {
    ContainsBefore(s, b, t);
    ContainsAfter(a, s + b, t);
    assert a + (s + b) == a + s + b;
  }

  lemma ContainsItself(s: string)
    ensures Contains(s, s)
  {
  }

  /** What occurs in a piece of `hay` occurs in `hay`. */
  lemma {:induction false} ContainsTransitive(hay: string, mid: string, t: string)
    requires Contains(hay, mid) && Contains(mid, t)
    ensures Contains(hay, t)
    decreases |hay|
  {
    if mid <= hay {
      ContainsBefore(mid, hay[|mid|..], t);
      assert mid + hay[|mid|..] == hay;
    } else {
      ContainsTransitive(hay[1..], mid, t);
    }
  }

  /** Lower-casing both sides keeps every occurrence. */
  lemma {:induction false} ContainsLower(s: string, t: string)
    requires Contains(s, t)
    ensures Contains(Lower(s), Lower(t))
    decreases |s|
  {
    if t <= s {
      assert Lower(t) <= Lower(s) by {
        assert forall i :: 0 <= i < |t| ==> Lower(t)[i] == Lower(s)[i];
      }
    } else {
      ContainsLower(s[1..], t);
      assert Lower(s)[1..] == Lower(s[1..]);
    }
  }

  lemma {:induction false} ContainsInExtent(hay: string, t: string)
    requires Contains(hay, t)
    ensures |t| <= |hay|
    decreases |hay|
  {
    if !(t <= hay) {
      ContainsInExtent(hay[1..], t);
    }
  }

  /**
   * `s.split(/[sep]+/)`: the pieces between maximal runs of separator
   * characters.  A run at either end leaves one empty piece there; there is
   * always at least one piece.
   */
  function SplitRuns(s: string, sep: char -> bool): (r: seq<string>)
    ensures |r| >= 1
  {
    if s == [] then [[]]
    else
      var rest := SplitRuns(s[1..], sep);
      if sep(s[0]) then
        if |s| > 1 && sep(s[1]) then rest else [[]] + rest
      else [[s[0]] + rest[0]] + rest[1..]
  }

  /** The characters of all pieces, in order (`pieces.join("")`). */
  function Concat(ss: seq<string>): string {
    if ss == [] then [] else ss[0] + Concat(ss[1..])
  }

  lemma {:induction false} ConcatAppend(a: seq<string>, b: seq<string>)
    ensures Concat(a + b) == Concat(a) + Concat(b)
  {
    if a == [] {
      assert a + b == b;
    } else {
      ConcatAppend(a[1..], b);
      assert (a + b)[1..] == a[1..] + b;
      assert Concat(a + b) == a[0] + Concat(a[1..] + b);
    }
  }

  /** Pieces that put together give nothing are all empty. */
  lemma {:induction false} ConcatEmpty(ss: seq<string>)
    requires Concat(ss) == []
    ensures forall k :: 0 <= k < |ss| ==> ss[k] == []
  {
    if ss != [] {
      ConcatEmpty(ss[1..]);
      assert forall k :: 1 <= k < |ss| ==> ss[k] == ss[1..][k - 1];
    }
  }

  /** Every character of every piece satisfies what every character of `s` satisfies. */
  lemma {:induction false} SplitRunsPiecesFrom(s: string, sep: char -> bool, p: char -> bool)
    requires forall i :: 0 <= i < |s| ==> p(s[i])
    ensures forall k, i :: 0 <= k < |SplitRuns(s, sep)| && 0 <= i < |SplitRuns(s, sep)[k]|
              ==> p(SplitRuns(s, sep)[k][i])
  {
    if s != [] {
      SplitRunsPiecesFrom(s[1..], sep, p);
    }
  }

  /** No piece of a split contains a separator. */
  lemma {:induction false} SplitRunsAvoidSeparator(s: string, sep: char -> bool)
    ensures forall k, i :: 0 <= k < |SplitRuns(s, sep)| && 0 <= i < |SplitRuns(s, sep)[k]|
              ==> !sep(SplitRuns(s, sep)[k][i])
  {
    if s != [] {
      SplitRunsAvoidSeparator(s[1..], sep);
    }
  }

  /** A string that starts with a separator splits with an empty first piece. */
  lemma {:induction false} SplitRunsLeadingSeparator(s: string, sep: char -> bool)
    requires s != [] && sep(s[0])
    ensures SplitRuns(s, sep)[0] == []
    decreases |s|
  {
    if |s| > 1 && sep(s[1]) {
      SplitRunsLeadingSeparator(s[1..], sep);
    }
  }

  /** A string without separators is one piece. */
  lemma {:induction false} SplitRunsWord(s: string, sep: char -> bool)
    requires forall i :: 0 <= i < |s| ==> !sep(s[i])
    ensures SplitRuns(s, sep) == [s]
    decreases |s|
  {
    if s != [] {
      SplitRunsWord(s[1..], sep);
      assert [s[0]] + s[1..] == s;
    }
  }

  /**
   * Splitting `x + [c] + y` at the separator `c`: the first piece is that of
   * `x`, and the kept pieces after it are those after the first piece of `x`
   * followed by the kept pieces of `y`.
   */
  lemma {:induction false} SplitRunsSeam(x: string, c: char, y: string, sep: char -> bool, keep: string -> bool)
    requires sep(c) && !keep([])
    ensures SplitRuns(x + [c] + y, sep)[0] == SplitRuns(x, sep)[0]
    ensures Filter(SplitRuns(x + [c] + y, sep)[1..], keep)
         == Filter(SplitRuns(x, sep)[1..], keep) + Filter(SplitRuns(y, sep), keep)
    decreases |x|
  {
    var s := x + [c] + y;
    var S, P, Q := SplitRuns(s, sep), SplitRuns(x, sep), SplitRuns(y, sep);
    if x == [] {
      assert s == [c] + y && s[1..] == y;
      if y != [] && sep(y[0]) {
        SplitRunsLeadingSeparator(y, sep);
        assert S == Q;
        FilterHead(Q, keep);
      } else {
        assert S == [[]] + Q && S[1..] == Q;
      }
      assert P == [[]] && Filter(P[1..], keep) == [];
    } else {
      var h, x' := x[0], x[1..];
      assert s[0] == h && s[1..] == x' + [c] + y;
      SplitRunsSeam(x', c, y, sep, keep);
      var S', P' := SplitRuns(x' + [c] + y, sep), SplitRuns(x', sep);
      if sep(h) {
        if x' == [] {
          assert s[1] == c;
          assert S == S' && P == [[]] + [[]] && P' == [[]];
          assert Filter(P[1..], keep) == [] by { FilterHead(P[1..], keep); }
          assert Filter(P'[1..], keep) == [];
        } else if sep(x'[0]) {
          assert s[1] == x'[0] && x[1] == x'[0];
          assert S == S' && P == P';
        } else {
          assert s[1] == x'[0] && x[1] == x'[0];
          assert S == [[]] + S' && P == [[]] + P';
          assert S[1..] == S' && P[1..] == P';
          FilterHead(S', keep);
          FilterHead(P', keep);
          AppendAssociative(if keep(S'[0]) then [S'[0]] else [], Filter(P'[1..], keep), Filter(Q, keep));
        }
      } else {
        assert S == [[h] + S'[0]] + S'[1..] && P == [[h] + P'[0]] + P'[1..];
        assert S[1..] == S'[1..] && P[1..] == P'[1..];
      }
    }
  }

  // Proof step: regrouping a concatenation, so the split lemmas can name the seam.
  lemma AppendAssociative<T>(a: seq<T>, b: seq<T>, c: seq<T>)
    ensures a + (b + c) == (a + b) + c
  {
  }

  /** The kept pieces of `x + [c] + y`, for a separator `c`, are those of `x` followed by those of `y`. */
  lemma SplitRunsAtSeparator(x: string, c: char, y: string, sep: char -> bool, keep: string -> bool)
    requires sep(c) && !keep([])
    ensures Filter(SplitRuns(x + [c] + y, sep), keep) == Filter(SplitRuns(x, sep), keep) + Filter(SplitRuns(y, sep), keep)
  {
    var S, P := SplitRuns(x + [c] + y, sep), SplitRuns(x, sep);
    SplitRunsSeam(x, c, y, sep, keep);
    FilterHead(S, keep);
    FilterHead(P, keep);
    AppendAssociative(if keep(S[0]) then [S[0]] else [], Filter(P[1..], keep), Filter(SplitRuns(y, sep), keep));
  }

  /** Splitting drops exactly the separators: the pieces put together are the other characters. */
  lemma {:induction false} SplitRunsConcat(s: string, sep: char -> bool, keep: char -> bool)
    requires forall c :: keep(c) == !sep(c)
    ensures Concat(SplitRuns(s, sep)) == Filter(s, keep)
  {
    if s != [] {
      var c, t := s[0], s[1..];
      var rest := SplitRuns(t, sep);
      SplitRunsConcat(t, sep, keep);
      assert s == [c] + t;
      FilterCons(c, t, keep);
      if sep(c) {
        var r := [[]] + rest;
        assert r[1..] == rest;
        assert Concat(r) == [] + Concat(rest);
      } else {
        var r := [[c] + rest[0]] + rest[1..];
        assert r[1..] == rest[1..];
        assert Concat(r) == [c] + rest[0] + Concat(rest[1..]);
        assert Concat(rest) == rest[0] + Concat(rest[1..]);
      }
    }
  }

  /** `pieces.join(sep)`. */
  function Join(ss: seq<string>, sep: string): string {
    if ss == [] then []
    else if |ss| == 1 then ss[0]
    else ss[0] + sep + Join(ss[1..], sep)
  }

  /** Every piece can be found in the joined string. */
  lemma {:induction false} JoinContainsPiece(ss: seq<string>, sep: string, k: nat)
    requires k < |ss|
    ensures Contains(Join(ss, sep), ss[k])
  {
    if |ss| == 1 {
      ContainsItself(ss[0]);
      assert ss[0] + [] == ss[0];
    } else if k == 0 {
      ContainsItself(ss[0]);
      ContainsInside([], ss[0], sep + Join(ss[1..], sep), ss[0]);
      assert [] + ss[0] + (sep + Join(ss[1..], sep)) == Join(ss, sep);
    } else {
      JoinContainsPiece(ss[1..], sep, k - 1);
      ContainsInside(ss[0] + sep, Join(ss[1..], sep), [], ss[k]);
      assert ss[0] + sep + Join(ss[1..], sep) + [] == Join(ss, sep);
    }
  }

  predicate IsDigit(c: char) {
    '0' <= c <= '9'
  }

  /** The decimal value of a string of digits (0 for the empty string). */
  function DigitsValue(ds: string): nat {
    if ds == [] then 0
    else
      var c := ds[|ds| - 1];
      DigitsValue(ds[..|ds| - 1]) * 10 + (if IsDigit(c) then c as int - '0' as int else 0)
  }

  /** The longest prefix of `s` made of digits. */
  function LeadingDigits(s: string): (r: string)
    ensures r <= s
    ensures forall i :: 0 <= i < |r| ==> IsDigit(r[i])
    ensures |r| < |s| ==> !IsDigit(s[|r|])
  {
    if s != [] && IsDigit(s[0]) then [s[0]] + LeadingDigits(s[1..]) else []
  }

  function Pow10(n: nat): (r: nat)
    ensures r >= 1
  {
    if n == 0 then 1 else 10 * Pow10(n - 1)
  }

  /** A string of `n` digits reads as less than 10^n. */
  lemma {:induction false} DigitsValueBelow(ds: string)
    ensures DigitsValue(ds) < Pow10(|ds|)
  {
    if ds != [] {
      DigitsValueBelow(ds[..|ds| - 1]);
    }
  }

  lemma DigitsValueSnoc(s: string, c: char)
    ensures DigitsValue(s + [c]) == DigitsValue(s) * 10 + (if IsDigit(c) then c as int - '0' as int else 0)
  {
    assert (s + [c])[..|s|] == s;
  }

  // Proof step: the distributive law DigitsValueAppend needs, on plain integers.
  lemma ShiftByTen(v: int, p: int, w: int)
    ensures (v * p + w) * 10 == v * (10 * p) + w * 10
  {
  }

  /** Reading `a + b` shifts the value of `a` by the length of `b`. */
  lemma {:induction false} DigitsValueAppend(a: string, b: string)
    ensures DigitsValue(a + b) == DigitsValue(a) * Pow10(|b|) + DigitsValue(b)
    decreases |b|
  {
    if b == [] {
      assert a + b == a;
    } else {
      var b', c := b[..|b| - 1], b[|b| - 1];
      assert b == b' + [c] && a + b == (a + b') + [c];
      DigitsValueAppend(a, b');
      DigitsValueSnoc(a + b', c);
      DigitsValueSnoc(b', c);
      var v, p, w := DigitsValue(a), Pow10(|b'|), DigitsValue(b');
      var e := if IsDigit(c) then c as int - '0' as int else 0;
      assert Pow10(|b|) == 10 * p;
      calc {
        DigitsValue(a + b);
        DigitsValue(a + b') * 10 + e;
        (v * p + w) * 10 + e;
        { ShiftByTen(v, p, w); }
        v * (10 * p) + (w * 10 + e);
        v * Pow10(|b|) + DigitsValue(b);
      }
    }
  }
}
