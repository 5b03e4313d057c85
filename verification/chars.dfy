/** Character-level helpers used by both tokenizers: the parts of <ctype.h>,
    <string.h> and `strtol` that the C code relies on, over Dafny strings.
 */
module Chars {

  /** The input program is `argv[1]`, a C string: it holds no NUL character,
      and the NUL that terminates it is what stops every scan. */
  type CString = s: string | '\0' !in s

  /** `p[i]` for `p` pointing at the start of `s`: past the end of the
      string the terminating NUL is read. */
  function At(s: string, i: nat): char
  {
    if i < |s| then s[i] else '\0'
  }

  /** `isspace` in the C locale. */
  predicate IsSpace(c: char)
  {
    c == ' ' || c == '\t' || c == '\n' || c == '\U{B}' || c == '\U{C}' || c == '\r'
  }

  /** `isdigit`. */
  predicate IsDigit(c: char)
  {
    '0' <= c <= '9'
  }

  function DigitValue(c: char): (d: nat)
    requires IsDigit(c)
    ensures d < 10
  {
    (c as int) - ('0' as int)
  }

  /** The number a string of decimal digits denotes, most significant first. */
  function DecimalValue(ds: string): nat
    requires forall k :: 0 <= k < |ds| ==> IsDigit(ds[k])
  {
    if |ds| == 0 then 0
    else DecimalValue(ds[..|ds| - 1]) * 10 + DigitValue(ds[|ds| - 1])
  }

  /** Where `strtol(p, &end, 10)` leaves `end` when `s[p]` is a digit: the end
      of the longest run of decimal digits starting at `p`. */
  function DigitRunEnd(s: string, p: nat): (q: nat)
    requires p <= |s|
    ensures p <= q <= |s|
    ensures forall k :: p <= k < q ==> IsDigit(s[k])
    ensures q == |s| || !IsDigit(s[q])
    decreases |s| - p
  {
    if p < |s| && IsDigit(s[p]) then DigitRunEnd(s, p + 1) else p
  }

  /** The value `strtol` returns for the digit run at `p` (no 64-bit
      saturation and no truncation to `int`). */
  function DecimalAt(s: string, p: nat): nat
    requires p <= |s|
  {
    DecimalValue(s[p..DigitRunEnd(s, p)])
  }

  /** `is_startwith(p, q)`: `memcmp(p, q, strlen(q)) == 0`, reading the
      terminating NUL of `s` where `q` runs past its end. */
  predicate StartsWith(s: string, p: nat, q: string)
  {
    forall k :: 0 <= k < |q| ==> At(s, p + k) == q[k]
  }

  /** Because neither string holds a NUL, `is_startwith` is exactly "the
      next `|q|` characters of `s` are `q`" and never looks past the end. */
  lemma StartsWithInBounds(s: CString, p: nat, q: CString)
    requires p <= |s|
    ensures StartsWith(s, p, q) <==> p + |q| <= |s| && s[p..p + |q|] == q
  {
    if StartsWith(s, p, q) && |q| > 0 {
      var k := |q| - 1;
      assert q[k] in q;
      assert At(s, p + k) != '\0';
    }
  }

  /** The four two-character punctuators, tried in this order before any
      single character (`==`, `!=`, `<=`, `>=`). */
  const TwoCharOps: seq<string> := ["==", "!=", "<=", ">="]

  predicate TwoCharOpAt(s: string, p: nat)
  {
    StartsWith(s, p, "==") || StartsWith(s, p, "!=") ||
    StartsWith(s, p, "<=") || StartsWith(s, p, ">=")
  }

  lemma TwoCharOpInBounds(s: CString, p: nat)
    requires p <= |s|
    ensures TwoCharOpAt(s, p) <==> p + 2 <= |s| && s[p..p + 2] in TwoCharOps
    ensures TwoCharOpAt(s, p) ==> p < |s| && s[p] in "=!<>"
  {
    StartsWithInBounds(s, p, "==");
    StartsWithInBounds(s, p, "!=");
    StartsWithInBounds(s, p, "<=");
    StartsWithInBounds(s, p, ">=");
  }

  /** The digits `printf("%d")` writes for a natural number. */
  function NatText(n: nat): (ds: string)
    ensures |ds| > 0
    ensures forall k :: 0 <= k < |ds| ==> IsDigit(ds[k])
  {
    var last := [('0' as int + n % 10) as char];
    if n < 10 then last else NatText(n / 10) + last
  }

  /** `printf("%d", n)`: an optional minus sign, then the digits of `|n|`. */
  function IntText(n: int): string
  {
    if n < 0 then "-" + NatText(-n) else NatText(n)
  }

  /** Reading back what `printf("%d")` wrote gives the number again. */
  lemma {:induction false} DecimalValueOfNatText(n: nat)
    ensures DecimalValue(NatText(n)) == n
  {
    var ds := NatText(n);
    if n >= 10 {
      DecimalValueOfNatText(n / 10);
      assert ds[..|ds| - 1] == NatText(n / 10);
    }
  }
}
