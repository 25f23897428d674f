/** The JavaScript string built-ins the site relies on: `String.prototype.trim`,
    `String.prototype.toUpperCase` (on the Latin letters) and the decimal
    rendering of an integer (`String(n)`, template literals), together with
    the decimal reading that inverts that rendering. */
module Text {

  import opened Optional

  /** The characters `trim` removes: ECMAScript's WhiteSpace (tab, vertical tab,
      form feed, space, no-break space, byte-order mark and the other "Zs"
      space separators) and LineTerminator (LF, CR, LS, PS). */
  predicate IsWhitespace(c: char) {
    || c == '\t' || c == '\n' || c == '\U{B}' || c == '\U{C}' || c == '\r' || c == ' '
    || c == '\U{A0}' || c == '\U{1680}' || ('\U{2000}' <= c <= '\U{200A}')
    || c == '\U{2028}' || c == '\U{2029}' || c == '\U{202F}' || c == '\U{205F}'
    || c == '\U{3000}' || c == '\U{FEFF}'
  }

  predicate AllWhitespace(s: string) {
    forall i :: 0 <= i < |s| ==> IsWhitespace(s[i])
  }

  /** `r` is `s` with whitespace removed at both ends: it sits at offset `i`
      of `s`, and everything before and after it is whitespace. */
  ghost predicate TrimmedAt(s: string, r: string, i: int) {
    && 0 <= i <= |s| - |r| && r == s[i..i + |r|]
    && AllWhitespace(s[..i]) && AllWhitespace(s[i + |r|..])
  }

  /** `s.trim()`: leading whitespace is dropped one character at a time,
      then trailing whitespace. The result is empty exactly when `s` is all
      whitespace; what is left is an infix of `s` surrounded by whitespace
      only (`TrimInfix`) that neither starts nor ends with whitespace
      (`TrimEdges`). */
  function Trim(s: string): (r: string)
    ensures r == [] <==> AllWhitespace(s)
    decreases |s|
  {
    if s != [] && IsWhitespace(s[0]) then
      assert AllWhitespace(s) <==> AllWhitespace(s[1..]) by {
        if AllWhitespace(s[1..]) {
          forall k | 0 <= k < |s| ensures IsWhitespace(s[k]) {
            if k > 0 { assert s[k] == s[1..][k - 1]; }
          }
        }
      }
      Trim(s[1..])
    else if s != [] && IsWhitespace(s[|s| - 1]) then
      var t := s[..|s| - 1];
      assert t != [] && t[0] == s[0];
      Trim(t)
    else
      s
  }

  /** What `Trim` returns sits in `s` between two runs of whitespace. */
  lemma {:induction false} TrimInfix(s: string)
    ensures exists i :: TrimmedAt(s, Trim(s), i)
    decreases |s|
  {
    var r := Trim(s);
    if s != [] && IsWhitespace(s[0]) {
      TrimInfix(s[1..]);
      TrimDropFirst(s, r);
    } else if s != [] && IsWhitespace(s[|s| - 1]) {
      var t := s[..|s| - 1];
      TrimInfix(t);
      TrimDropLast(s, t, r);
    } else {
      assert s[0..|s|] == s;
      assert TrimmedAt(s, s, 0);
    }
  }

  lemma TrimDropFirst(s: string, r: string)
    requires s != [] && IsWhitespace(s[0])
    requires exists i :: TrimmedAt(s[1..], r, i)
    ensures exists i :: TrimmedAt(s, r, i)
  {
    var i :| TrimmedAt(s[1..], r, i);
    assert s[1..][..i] == s[1..i + 1];
    assert s[1..][i + |r|..] == s[i + 1 + |r|..];
    assert s[..i + 1] == [s[0]] + s[1..i + 1];
    assert TrimmedAt(s, r, i + 1);
  }

  lemma TrimDropLast(s: string, t: string, r: string)
    requires s != [] && IsWhitespace(s[|s| - 1])
    requires t == s[..|s| - 1]
    requires exists i :: TrimmedAt(t, r, i)
    ensures exists i :: TrimmedAt(s, r, i)
  {
    var i :| TrimmedAt(t, r, i);
    assert t[..i] == s[..i];
    assert s[i + |r|..] == t[i + |r|..] + [s[|s| - 1]];
    assert TrimmedAt(s, r, i);
  }

  /** The trimmed text neither starts nor ends with whitespace. */
  lemma {:induction false} TrimEdges(s: string)
    ensures var r := Trim(s);
      r == [] || (!IsWhitespace(r[0]) && !IsWhitespace(r[|r| - 1]))
    decreases |s|
  {
    if s != [] && IsWhitespace(s[0]) {
      TrimEdges(s[1..]);
    } else if s != [] && IsWhitespace(s[|s| - 1]) {
      TrimEdges(s[..|s| - 1]);
    }
  }

  /** Trimming twice is trimming once. */
  lemma TrimIdempotent(s: string)
    ensures Trim(Trim(s)) == Trim(s)
  {
    TrimEdges(s);
  }

  /** `toUpperCase` on one character, for the Latin letters. */
  function UpperChar(c: char): char {
    if 'a' <= c <= 'z' then (c as int - 'a' as int + 'A' as int) as char else c
  }

  /** The inverse direction, used to state case insensitivity. */
  function LowerChar(c: char): char {
    if 'A' <= c <= 'Z' then (c as int - 'A' as int + 'a' as int) as char else c
  }

  /** `s.toUpperCase()`: every Latin lower-case letter replaced by its capital. */
  function ToUpper(s: string): (r: string)
    ensures |r| == |s|
    ensures forall i :: 0 <= i < |s| ==> r[i] == UpperChar(s[i])
  {
    seq(|s|, i requires 0 <= i < |s| => UpperChar(s[i]))
  }

  function ToLower(s: string): (r: string)
    ensures |r| == |s|
    ensures forall i :: 0 <= i < |s| ==> r[i] == LowerChar(s[i])
  {
    seq(|s|, i requires 0 <= i < |s| => LowerChar(s[i]))
  }

  /** Upper-casing ignores the case the string was written in. */
  lemma UpperOfLower(s: string)
    ensures ToUpper(ToLower(s)) == ToUpper(s)
  {
    var a, b := ToUpper(ToLower(s)), ToUpper(s);
    assert |a| == |b|;
    forall i | 0 <= i < |s| ensures a[i] == b[i] {
      assert a[i] == UpperChar(LowerChar(s[i]));
    }
  }

  function DigitChar(d: int): char
    requires 0 <= d < 10
  {
    ('0' as int + d) as char
  }

  predicate IsDigit(c: char) {
    '0' <= c <= '9'
  }

  /** Decimal digits of `n`, most significant first, without leading zeros. */
  function NatToString(n: nat): (r: string)
    ensures r != [] && forall i :: 0 <= i < |r| ==> IsDigit(r[i])
    ensures |r| > 1 ==> r[0] != '0'
  {
    if n < 10 then [DigitChar(n)] else NatToString(n / 10) + [DigitChar(n % 10)]
  }

  /** `String(n)` for an integer `n`. */
  function IntToString(n: int): (r: string)
    ensures r != []
  {
    if n < 0 then "-" + NatToString(-n) else NatToString(n)
  }

  /** The value of a string of decimal digits. */
  function DigitsValue(s: string): nat
    requires forall i :: 0 <= i < |s| ==> IsDigit(s[i])
  {
    if s == [] then 0
    else
      assert IsDigit(s[|s| - 1]);
      DigitsValue(s[..|s| - 1]) * 10 + (s[|s| - 1] as int - '0' as int)
  }

  /** Reads an optionally negative decimal numeral; `None` for anything else. */
  function ParseDecimal(s: string): Option<int> {
    if s != [] && s[0] == '-' && |s| > 1 && forall i :: 1 <= i < |s| ==> IsDigit(s[i]) then
      var v: int := -(DigitsValue(s[1..]) as int);
      Some(v)
    else if s != [] && forall i :: 0 <= i < |s| ==> IsDigit(s[i]) then
      Some(DigitsValue(s))
    else
      None
  }

  lemma {:induction false} NatToStringValue(n: nat)
    ensures DigitsValue(NatToString(n)) == n
  {
    if n >= 10 {
      NatToStringValue(n / 10);
      var s := NatToString(n);
      assert s[..|s| - 1] == NatToString(n / 10);
    }
  }

  /** Reading back the decimal rendering of an integer yields the integer. */
  lemma IntToStringRoundTrip(n: int)
    ensures ParseDecimal(IntToString(n)) == Some(n)
  {
    if n < 0 {
      NegativeRoundTrip(n, NatToString(-n));
    } else {
      NatToStringValue(n);
      var s := NatToString(n);
      assert IsDigit(s[0]);
    }
  }

  lemma NegativeRoundTrip(n: int, t: string)
    requires n < 0 && t == NatToString(-n)
    ensures ParseDecimal("-" + t) == Some(n)
  {
    NatToStringValue(-n);
    var s := "-" + t;
    assert s[1..] == t;
    assert forall i :: 1 <= i < |s| ==> IsDigit(s[i]) by {
      forall i | 1 <= i < |s| ensures IsDigit(s[i]) {
        assert s[i] == t[i - 1];
      }
    }
  }

  /** Distinct integers are rendered differently. */
  lemma IntToStringInjective(m: int, n: int)
    ensures IntToString(m) == IntToString(n) ==> m == n
  {
    IntToStringRoundTrip(m);
    IntToStringRoundTrip(n);
  }
}
