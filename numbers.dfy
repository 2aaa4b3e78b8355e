/**
 * JavaScript's `parseFloat` on a string, over exact reals.  The result is a
 * JavaScript number: NaN when the string does not begin with a decimal
 * literal, an infinity for a leading "Infinity", and otherwise the value of
 * the longest decimal literal at the front (after white space and a sign).
 */
module Numbers {
  import opened Wrappers
  import opened Text

  datatype JsNumber = NaN | Finite(value: real) | Infinite(negative: bool)

  /** The value of the digits after a decimal point. */
  function Fraction(ds: string): (r: real)
    ensures 0.0 <= r
  {
    DigitsValue(ds) as real / Pow10(|ds|) as real
  }

  /** `m` times ten to the power `e`. */
  function Scale(m: real, e: int): real {
    if e >= 0 then m * Pow10(e) as real else m / Pow10(-e) as real
  }

  /** The exponent given by an `e`/`E` part at the front of `s`, or 0 when there is none. */
  function ExponentPart(s: string): int {
    if s != [] && (s[0] == 'e' || s[0] == 'E') then
      var signed := |s| > 1 && (s[1] == '-' || s[1] == '+');
      var ds := LeadingDigits(if signed then s[2..] else s[1..]);
      if ds == [] then 0
      else if signed && s[1] == '-' then -(DigitsValue(ds) as int)
      else DigitsValue(ds)
    else 0
  }

  /**
   * `parseFloat(s)`: white space is skipped, then a sign, then an unsigned
   * literal.  A blank string is NaN, and a string with no digit at all is NaN
   * unless it spells an infinity.
   */
  function ParseFloat(s: string): (r: JsNumber)
    ensures AllWhitespace(s) ==> r == NaN
    ensures (forall i :: 0 <= i < |s| ==> !IsDigit(s[i])) ==> r == NaN || r.Infinite?
  {
    var t := TrimStart(s);
    var body := if t != [] && (t[0] == '-' || t[0] == '+') then t[1..] else t;
    TrimStartEmpty(s);
    assert (forall i :: 0 <= i < |s| ==> !IsDigit(s[i])) ==> DecimalPrefix(body) == NaN by {
      if forall i :: 0 <= i < |s| ==> !IsDigit(s[i]) {
        TrimStartSuffix(s);
        assert forall i :: 0 <= i < |body| ==> !IsDigit(body[i]) by {
          if t != [] && (t[0] == '-' || t[0] == '+') {
            assert forall i :: 0 <= i < |body| ==> body[i] == t[i + 1];
          }
        }
        NoDigitsPrefix(body);
      }
    }
    assert AllWhitespace(s) ==> forall i :: 0 <= i < |s| ==> !IsDigit(s[i]);
    if t != [] && t[0] == '-' then Negate(ParseUnsigned(t[1..]))
    else if t != [] && t[0] == '+' then ParseUnsigned(t[1..])
    else ParseUnsigned(t)
  }

  function Negate(n: JsNumber): JsNumber {
    match n
    case NaN => NaN
    case Finite(v) => Finite(-v)
    case Infinite(negative) => Infinite(!negative)
  }

  function ParseUnsigned(body: string): JsNumber {
    if "Infinity" <= body then Infinite(false) else DecimalPrefix(body)
  }

  /** A decimal literal: the digits before and after the point, and the exponent. */
  datatype Literal = Literal(whole: string, frac: string, exponent: int)

  function LiteralValue(l: Literal): real {
    Scale(DigitsValue(l.whole) as real + Fraction(l.frac), l.exponent)
  }

  /** The longest literal `digits [. digits] [e [sign] digits]` at the front of `body`, if any. */
  function ScanDecimal(body: string): Option<Literal> {
    var whole := LeadingDigits(body);
    var rest := body[|whole|..];
    var dot := rest != [] && rest[0] == '.';
    var frac := if dot then LeadingDigits(rest[1..]) else [];
    var after := if dot then rest[1 + |frac|..] else rest;
    if whole == [] && frac == [] then None
    else Some(Literal(whole, frac, ExponentPart(after)))
  }

  function DecimalPrefix(body: string): JsNumber {
    match ScanDecimal(body)
    case None => NaN
    case Some(l) => Finite(LiteralValue(l))
  }

  /** A string that begins with a digit is read as an unsigned literal. */
  lemma ParseFloatAtDigit(s: string)
    requires s != [] && IsDigit(s[0])
    ensures ParseFloat(s) == DecimalPrefix(s)
  {
    assert TrimStart(s) == s;
    assert !("Infinity" <= s) by {
      assert "Infinity"[0] == 'I';
    }
  }

  predicate AllDigits(s: string) {
    forall i :: 0 <= i < |s| ==> IsDigit(s[i])
  }

  lemma {:induction false} LeadingDigitsOfDigits(s: string, tail: string)
    requires AllDigits(s)
    requires tail == [] || !IsDigit(tail[0])
    ensures LeadingDigits(s + tail) == s
    decreases |s|
  {
    if s == [] {
      assert s + tail == tail;
    } else {
      assert (s + tail)[1..] == s[1..] + tail;
      LeadingDigitsOfDigits(s[1..], tail);
      assert [s[0]] + s[1..] == s;
    }
  }

  // Proof step: scaling by zero digits keeps the mantissa.
  lemma ScaleZero(m: real)
    ensures Scale(m, 0) == m
  {
  }

  /** A string of digits followed by something that cannot continue a number is read as those digits. */
  lemma ParseFloatDigits(ds: string, tail: string)
    requires ds != [] && AllDigits(ds)
    requires tail == [] || !(IsDigit(tail[0]) || tail[0] in ".eE")
    ensures ParseFloat(ds + tail) == Finite(DigitsValue(ds) as real)
  {
    var s := ds + tail;
    assert s[0] == ds[0];
    ParseFloatAtDigit(s);
    PrefixOfDigits(ds, tail);
  }

  lemma PrefixOfDigits(ds: string, tail: string)
    requires ds != [] && AllDigits(ds)
    requires tail == [] || !(IsDigit(tail[0]) || tail[0] in ".eE")
    ensures DecimalPrefix(ds + tail) == Finite(DigitsValue(ds) as real)
  {
    ScanDigits(ds, tail);
    WholeValue(ds, []);
  }

  lemma ScanDigits(ds: string, tail: string)
    requires ds != [] && AllDigits(ds)
    requires tail == [] || !(IsDigit(tail[0]) || tail[0] in ".eE")
    ensures ScanDecimal(ds + tail) == Some(Literal(ds, [], 0))
  {
    var s := ds + tail;
    LeadingDigitsOfDigits(ds, tail);
    assert s[|ds|..] == tail;
  }

  /** A literal without exponent is worth its whole part plus its fraction. */
  lemma WholeValue(ds: string, fs: string)
    ensures LiteralValue(Literal(ds, fs, 0)) == DigitsValue(ds) as real + Fraction(fs)
    ensures fs == [] ==> LiteralValue(Literal(ds, fs, 0)) == DigitsValue(ds) as real
  {
    ScaleZero(DigitsValue(ds) as real + Fraction(fs));
    assert Fraction([]) == 0.0;
  }

  /** `parseFloat` of a decimal `ds.fs` is its exact value. */
  lemma ParseFloatDecimal(ds: string, fs: string)
    requires ds != [] && AllDigits(ds) && AllDigits(fs)
    ensures ParseFloat(ds + "." + fs) == Finite(DigitsValue(ds) as real + Fraction(fs))
  {
    var s := ds + "." + fs;
    assert s[0] == ds[0];
    ParseFloatAtDigit(s);
    ScanPointDigits(ds, fs);
    WholeValue(ds, fs);
  }

  lemma ScanPointDigits(ds: string, fs: string)
    requires ds != [] && AllDigits(ds) && AllDigits(fs)
    ensures ScanDecimal(ds + "." + fs) == Some(Literal(ds, fs, 0))
  {
    var s := ds + "." + fs;
    assert s == ds + ("." + fs);
    LeadingDigitsOfDigits(ds, "." + fs);
    var rest := s[|ds|..];
    assert rest == "." + fs;
    assert rest[1..] == fs + [];
    LeadingDigitsOfDigits(fs, []);
    assert rest[1 + |fs|..] == [];
  }

  lemma NoDigitsPrefix(body: string)
    requires forall i :: 0 <= i < |body| ==> !IsDigit(body[i])
    ensures DecimalPrefix(body) == NaN
  {
    assert LeadingDigits(body) == [];
    var rest := body[0..];
    assert rest == body;
    if rest != [] && rest[0] == '.' && |rest| > 1 {
      assert rest[1..][0] == body[1];
    }
    assert ScanDecimal(body) == None;
  }

  /** `TrimStart` drops a prefix: what holds of every character of `s` holds of its result. */
  lemma {:induction false} TrimStartSuffix(s: string)
    ensures exists n :: 0 <= n <= |s| && TrimStart(s) == s[n..]
  {
    if s != [] && IsWhitespace(s[0]) {
      TrimStartSuffix(s[1..]);
      var n :| 0 <= n <= |s[1..]| && TrimStart(s[1..]) == s[1..][n..];
      assert s[1..][n..] == s[n + 1..];
    } else {
      assert s[0..] == s;
    }
  }
}
