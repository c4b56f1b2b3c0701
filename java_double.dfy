/**
 * The text that Java's `Double.parseDouble` accepts: surrounding characters up
 * to the space are trimmed, then an optional sign and either `NaN`,
 * `Infinity`, a hexadecimal literal with a binary exponent, or a decimal
 * literal with an optional exponent; the last two may end in `f`, `F`, `d` or
 * `D`. Only acceptance is modelled, not the value.
 */
module JavaDouble {

  predicate IsDigit(c: char) { '0' <= c <= '9' }

  predicate IsHexDigit(c: char) { IsDigit(c) || 'a' <= c <= 'f' || 'A' <= c <= 'F' }

  /** `String.trim()`: drop leading and trailing characters at or below U+0020. */
  function Trim(s: string): (t: string)
    ensures |t| <= |s|
    ensures |t| > 0 ==> t[0] > ' ' && t[|t| - 1] > ' '
  {
    if |s| > 0 && s[0] <= ' ' then Trim(s[1..])
    else if |s| > 0 && s[|s| - 1] <= ' ' then Trim(s[..|s| - 1])
    else s
  }

  /** The end of the run of characters satisfying `digit` that starts at `i`. */
  function RunEnd(s: string, i: nat, hex: bool): (j: nat)
    requires i <= |s|
    ensures i <= j <= |s|
    ensures forall k :: i <= k < j ==> (if hex then IsHexDigit(s[k]) else IsDigit(s[k]))
    ensures j < |s| ==> !(if hex then IsHexDigit(s[j]) else IsDigit(s[j]))
    decreases |s| - i
  {
    if i < |s| && (if hex then IsHexDigit(s[i]) else IsDigit(s[i])) then RunEnd(s, i + 1, hex) else i
  }

  /** Position after an optional `+` or `-` at `i`. */
  function SkipSign(s: string, i: nat): (j: nat)
    requires i <= |s|
    ensures i <= j <= |s|
  {
    if i < |s| && (s[i] == '+' || s[i] == '-') then i + 1 else i
  }

  /** Position after an optional type suffix at `i`. */
  function SkipSuffix(s: string, i: nat): (j: nat)
    requires i <= |s|
    ensures i <= j <= |s|
  {
    if i < |s| && s[i] in "fFdD" then i + 1 else i
  }

  /** A signed exponent's digits start at `i` and must not be empty. */
  function ExponentEnd(s: string, i: nat): (r: int)
    requires i <= |s|
    ensures r == -1 || i < r <= |s|
  {
    var d := SkipSign(s, i);
    var e := RunEnd(s, d, false);
    if e == d then -1 else e
  }

  /** Decimal form starting at `i`: digits, optional point and digits, at least one digit. */
  predicate DecimalAt(s: string, i: nat)
    requires i <= |s|
  {
    var a := RunEnd(s, i, false);
    var b := if a < |s| && s[a] == '.' then RunEnd(s, a + 1, false) else a;
    var digits := (a - i) + (if b > a then b - a - 1 else 0);
    digits > 0 &&
    (if b < |s| && (s[b] == 'e' || s[b] == 'E') then
       var e := ExponentEnd(s, b + 1);
       e != -1 && SkipSuffix(s, e) == |s|
     else SkipSuffix(s, b) == |s|)
  }

  /** Hexadecimal form starting at `i`, after `0x`: hex digits, optional point, mandatory `p` exponent. */
  predicate HexAt(s: string, i: nat)
    requires i <= |s|
  {
    var a := RunEnd(s, i, true);
    var b := if a < |s| && s[a] == '.' then RunEnd(s, a + 1, true) else a;
    var digits := (a - i) + (if b > a then b - a - 1 else 0);
    digits > 0 && b < |s| && (s[b] == 'p' || s[b] == 'P') &&
    var e := ExponentEnd(s, b + 1);
    e != -1 && SkipSuffix(s, e) == |s|
  }

  /** `Double.parseDouble(s)` returns normally. */
  predicate ParsesAsDouble(s: string)
  {
    var t := Trim(s);
    var i := SkipSign(t, 0);
    t[i..] == "NaN" || t[i..] == "Infinity" ||
    (i + 2 <= |t| && t[i] == '0' && (t[i + 1] == 'x' || t[i + 1] == 'X') && HexAt(t, i + 2)) ||
    DecimalAt(t, i)
  }
}
