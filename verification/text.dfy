/**
 The two pieces of string handling the visit tracker relies on:
 `String.prototype.trim` (used to validate and clean a new user's name) and
 the decimal rendering of a non-negative integer (used for user ids and for
 the visit count in the "most frequent visitor" summary).
 */
module Text {

  /** The characters `trim` strips in this model: the ASCII white space and
      line terminators plus no-break space, the byte-order mark and the two
      Unicode line/paragraph separators. */
  predicate IsWhitespace(c: char) {
    || c == ' '  || c == '\t' || c == '\n' || c == '\r'
    || c == '\U{000B}' || c == '\U{000C}' || c == '\U{00A0}'
    || c == '\U{FEFF}' || c == '\U{2028}' || c == '\U{2029}'
  }

  predicate AllWhitespace(s: string) {
    forall i :: 0 <= i < |s| ==> IsWhitespace(s[i])
  }

  /** `s[i..k]` is what is left of `s` once its leading and trailing white
      space is cut off. */
  predicate IsTrimCut(s: string, i: int, k: int) {
    && 0 <= i <= k <= |s|
    && (forall j :: 0 <= j < i ==> IsWhitespace(s[j]))
    && (forall j :: k <= j < |s| ==> IsWhitespace(s[j]))
    && (i == k || (!IsWhitespace(s[i]) && !IsWhitespace(s[k - 1])))
  }

  /** Where trimming starts: the number of leading white-space characters. */
  function LeftEdge(s: string): (i: nat)
    ensures i <= |s|
    ensures forall j :: 0 <= j < i ==> IsWhitespace(s[j])
    ensures i == |s| || !IsWhitespace(s[i])
  {
    if s == [] then 0
    else if IsWhitespace(s[0]) then 1 + LeftEdge(s[1..])
    else 0
  }

  /** Where trimming ends: the scan from the back over white space, stopping
      at `left` at the latest. */
  function RightEdge(s: string, left: nat): (k: nat)
    requires left <= |s|
    ensures left <= k <= |s|
    ensures forall j :: k <= j < |s| ==> IsWhitespace(s[j])
    ensures k == left || !IsWhitespace(s[k - 1])
    decreases |s|
  {
    if |s| == left then left
    else if IsWhitespace(s[|s| - 1]) then RightEdge(s[..|s| - 1], left)
    else |s|
  }

  /** `String.prototype.trim`: the infix of `s` between the two edges.  It is
      empty exactly when `s` is all white space, and otherwise neither starts
      nor ends with white space. */
  function Trim(s: string): (r: string)
    ensures |r| <= |s|
    ensures r == [] <==> AllWhitespace(s)
    ensures r == [] || (!IsWhitespace(r[0]) && !IsWhitespace(r[|r| - 1]))
    ensures exists i, k :: IsTrimCut(s, i, k) && r == s[i..k]
  {
    var i := LeftEdge(s);
    var k := RightEdge(s, i);
    assert i == k ==> i == |s|;
    assert IsTrimCut(s, i, k);
    s[i..k]
  }

  /** A decimal digit character. */
  predicate IsDigit(c: char) {
    '0' <= c <= '9'
  }

  predicate AllDigits(s: string) {
    forall i :: 0 <= i < |s| ==> IsDigit(s[i])
  }

  function DigitChar(d: nat): (c: char)
    requires d < 10
    ensures IsDigit(c)
  {
    (48 + d) as char
  }

  function DigitValue(c: char): (d: nat)
    requires IsDigit(c)
    ensures d < 10
  {
    (c as int) - 48
  }

  /** `Number.prototype.toString()` on a non-negative integer: its decimal
      digits, most significant first, with no leading zero. */
  function NatToDecimal(n: nat): (r: string)
    ensures |r| >= 1 && AllDigits(r)
    ensures r[0] == '0' ==> n == 0 && |r| == 1
    decreases n
  {
    if n < 10 then [DigitChar(n)]
    else NatToDecimal(n / 10) + [DigitChar(n % 10)]
  }

  /** The number a string of decimal digits denotes (the empty string denotes 0). */
  function DecimalValue(s: string): nat
    requires AllDigits(s)
  {
    if s == [] then 0
    else DecimalValue(s[..|s| - 1]) * 10 + DigitValue(s[|s| - 1])
  }

  /** `Trim` agrees with the declarative description of trimming: whenever
      `s[i..k]` is `s` with its white space cut off at both ends, that is
      exactly what `Trim` returns. */
  lemma TrimMatchesCut(s: string, i: int, k: int)
    requires IsTrimCut(s, i, k)
    ensures Trim(s) == s[i..k]
  {
  }

  /** Trimming twice is trimming once. */
  lemma TrimIdempotent(s: string)
    ensures Trim(Trim(s)) == Trim(s)
  {
  }

  /** Reading back the decimal rendering of `n` gives `n`. */
  lemma {:induction false} DecimalRoundTrip(n: nat)
    ensures DecimalValue(NatToDecimal(n)) == n
    decreases n
  {
    var r := NatToDecimal(n);
    if n >= 10 {
      DecimalRoundTrip(n / 10);
      assert r[..|r| - 1] == NatToDecimal(n / 10);
      assert r[|r| - 1] == DigitChar(n % 10);
    }
  }

  /** Distinct numbers have distinct decimal renderings. */
  lemma NatToDecimalInjective(a: nat, b: nat)
    ensures NatToDecimal(a) == NatToDecimal(b) <==> a == b
  {
    if NatToDecimal(a) == NatToDecimal(b) {
      DecimalRoundTrip(a);
      DecimalRoundTrip(b);
    }
  }
}
