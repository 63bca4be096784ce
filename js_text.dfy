/**
 * The pieces of JavaScript string semantics that the forum's server and
 * client rely on: `String.prototype.trim`, `parseInt(s, 10)`, `String(n)`
 * for integers, and substring containment (the meaning given to the SQL
 * pattern `%keyword%`).
 */
module JsText {

  datatype Option<T> = None | Some(value: T)

  /** WhiteSpace and LineTerminator code points of ECMAScript (sections 12.2
      and 12.3 of ECMA-262): what `trim` strips and `parseInt` skips. */
  predicate IsWhitespace(c: char) {
    || c == '\t' || c == '\n' || c == '\U{000B}' || c == '\U{000C}' || c == '\r'
    || c == ' ' || c == '\U{00A0}' || c == '\U{1680}'
    || ('\U{2000}' <= c <= '\U{200A}')
    || c == '\U{2028}' || c == '\U{2029}' || c == '\U{202F}' || c == '\U{205F}'
    || c == '\U{3000}' || c == '\U{FEFF}'
  }

  predicate IsDigit(c: char) {
    '0' <= c <= '9'
  }

  predicate AllDigits(s: string) {
    forall i :: 0 <= i < |s| ==> IsDigit(s[i])
  }

  predicate AllWhitespace(s: string) {
    forall i :: 0 <= i < |s| ==> IsWhitespace(s[i])
  }

  // ---------------------------------------------------------------------
  // trim
  // ---------------------------------------------------------------------

  /** Every character of `s` in positions `a` to `b - 1` is whitespace. */
  predicate SpaceBetween(s: string, a: int, b: int)
    requires 0 <= a && b <= |s|
  {
    forall k :: a <= k < b ==> IsWhitespace(s[k])
  }

  /** The first position at or after `i` that holds no whitespace, or the
      end of `s`. */
  function SkipSpace(s: string, i: nat): (j: nat)
    requires i <= |s|
    ensures i <= j <= |s|
    decreases |s| - i
  {
    if i < |s| && IsWhitespace(s[i]) then SkipSpace(s, i + 1) else i
  }

  /** Going back from `j`, but not below `lo`: the position just after the
      last character that is not whitespace. */
  function SkipSpaceBack(s: string, lo: nat, j: nat): (i: nat)
    requires lo <= j <= |s|
    ensures lo <= i <= j
  {
    if j > lo && IsWhitespace(s[j - 1]) then SkipSpaceBack(s, lo, j - 1) else j
  }

  /** `String.prototype.trimStart`: `s` without its leading whitespace. */
  function TrimStart(s: string): string {
    s[SkipSpace(s, 0)..]
  }

  /** `String.prototype.trim`: `s` without its leading and trailing
      whitespace. */
  function Trim(s: string): string {
    var lo := SkipSpace(s, 0);
    s[lo..SkipSpaceBack(s, lo, |s|)]
  }

  lemma {:induction false} SkipSpaceStopsAtText(s: string, i: nat)
    requires i <= |s|
    decreases |s| - i
    ensures SpaceBetween(s, i, SkipSpace(s, i))
    ensures SkipSpace(s, i) < |s| ==> !IsWhitespace(s[SkipSpace(s, i)])
  {
    if i < |s| && IsWhitespace(s[i]) {
      SkipSpaceStopsAtText(s, i + 1);
    }
  }

  lemma {:induction false} SkipSpaceBackStopsAtText(s: string, lo: nat, j: nat)
    requires lo <= j <= |s|
    ensures SpaceBetween(s, SkipSpaceBack(s, lo, j), j)
    ensures SkipSpaceBack(s, lo, j) > lo ==> !IsWhitespace(s[SkipSpaceBack(s, lo, j) - 1])
  {
    if j > lo && IsWhitespace(s[j - 1]) {
      SkipSpaceBackStopsAtText(s, lo, j - 1);
    }
  }

  /** `trim` cuts `s` into leading whitespace, the result, and trailing
      whitespace, and the result neither starts nor ends with whitespace. */
  lemma TrimIsWindow(s: string)
    ensures exists lo, hi :: 0 <= lo <= hi <= |s| && Trim(s) == s[lo..hi]
                             && SpaceBetween(s, 0, lo) && SpaceBetween(s, hi, |s|)
    ensures Trim(s) == [] || (!IsWhitespace(Trim(s)[0]) && !IsWhitespace(Trim(s)[|Trim(s)| - 1]))
  {
    var lo := SkipSpace(s, 0);
    var hi := SkipSpaceBack(s, lo, |s|);
    SkipSpaceStopsAtText(s, 0);
    SkipSpaceBackStopsAtText(s, lo, |s|);
    if lo < hi {
      assert Trim(s)[0] == s[lo];
      assert Trim(s)[|Trim(s)| - 1] == s[hi - 1];
    }
    assert Trim(s) == s[lo..hi];
  }

  /** Trimming twice is trimming once. */
  lemma TrimIdempotent(s: string)
    ensures Trim(Trim(s)) == Trim(s)
  {
    TrimIsWindow(s);
    var r := Trim(s);
    if r != [] {
      assert SkipSpace(r, 0) == 0;
      assert SkipSpaceBack(r, 0, |r|) == |r|;
    }
  }

  lemma {:induction false} SkipSpaceOverSpace(s: string, i: nat)
    requires i <= |s| && SpaceBetween(s, i, |s|)
    decreases |s| - i
    ensures SkipSpace(s, i) == |s|
  {
    if i < |s| {
      SkipSpaceOverSpace(s, i + 1);
    }
  }

  /** A string trims to nothing exactly when it is all whitespace. */
  lemma TrimEmptyIffWhitespace(s: string)
    ensures Trim(s) == [] <==> AllWhitespace(s)
  {
    var lo := SkipSpace(s, 0);
    SkipSpaceStopsAtText(s, 0);
    SkipSpaceBackStopsAtText(s, lo, |s|);
    if AllWhitespace(s) {
      SkipSpaceOverSpace(s, 0);
    }
    if Trim(s) == [] {
      assert SkipSpaceBack(s, lo, |s|) == lo;
    }
  }

  // ---------------------------------------------------------------------
  // Decimal digits: String(n) and parseInt(s, 10)
  // ---------------------------------------------------------------------

  function DigitChar(d: nat): (c: char)
    requires d < 10
    ensures IsDigit(c)
  {
    ['0', '1', '2', '3', '4', '5', '6', '7', '8', '9'][d]
  }

  function DigitValue(c: char): (d: nat)
    requires IsDigit(c)
    ensures d < 10 && DigitChar(d) == c
  {
    (c as int - '0' as int) as nat
  }

  /** The value of a string of decimal digits, most significant first. */
  function DigitsValue(d: string): nat
    requires AllDigits(d)
  {
    if d == [] then 0 else DigitsValue(d[..|d| - 1]) * 10 + DigitValue(d[|d| - 1])
  }

  /** `String(n)` for a non-negative integer. */
  function NatToString(n: nat): string {
    (if n < 10 then [] else NatToString(n / 10)) + [DigitChar(n % 10)]
  }

  /** `String(i)` for any integer. */
  function IntToString(i: int): string {
    if i < 0 then "-" + NatToString(-i) else NatToString(i)
  }

  /** `String(n)` is the shortest decimal form of `n`: digits only, and no
      leading zero unless `n` is zero. */
  lemma {:induction false} NatToStringDigits(n: nat)
    ensures NatToString(n) != [] && AllDigits(NatToString(n))
    ensures NatToString(n)[0] == '0' ==> n == 0
  {
    if n >= 10 {
      NatToStringDigits(n / 10);
      assert NatToString(n)[0] == NatToString(n / 10)[0];
    }
  }

  /** Decimal rendering and digit evaluation are inverse. */
  lemma {:induction false} DigitsValueOfNatToString(n: nat)
    ensures AllDigits(NatToString(n)) && DigitsValue(NatToString(n)) == n
  {
    NatToStringDigits(n);
    var s := NatToString(n);
    assert s[..|s| - 1] == if n < 10 then [] else NatToString(n / 10);
    if n >= 10 {
      DigitsValueOfNatToString(n / 10);
    }
  }

  /** The longest prefix of `s` made of decimal digits. */
  function DigitPrefix(s: string): string {
    if |s| > 0 && IsDigit(s[0]) then [s[0]] + DigitPrefix(s[1..]) else []
  }

  /** `DigitPrefix` is a prefix, all digits, and cannot be extended. */
  lemma {:induction false} DigitPrefixIsLongest(s: string)
    ensures var d := DigitPrefix(s);
      && |d| <= |s| && d == s[..|d|] && AllDigits(d)
      && (|d| < |s| ==> !IsDigit(s[|d|]))
  {
    if |s| > 0 && IsDigit(s[0]) {
      DigitPrefixIsLongest(s[1..]);
    }
  }

  /** `parseInt(s, 10)` (ECMA-262 section 19.2.5): skip leading whitespace,
      read an optional sign, then the longest run of decimal digits; no
      digit at all gives NaN, written here as None. */
  function ParseInt(s: string): Option<int> {
    ParseSigned(TrimStart(s))
  }

  /** `parseInt` once the leading whitespace is gone. */
  function ParseSigned(t: string): Option<int> {
    if |t| > 0 && t[0] == '-' then Negated(ParseUnsigned(t[1..]))
    else if |t| > 0 && t[0] == '+' then ParseUnsigned(t[1..])
    else ParseUnsigned(t)
  }

  function Negated(v: Option<int>): Option<int> {
    if v.None? then None else Some(-v.value)
  }

  /** The value of the leading run of digits, if there is one. */
  function ParseUnsigned(u: string): Option<int> {
    var d := DigitPrefix(u);
    DigitPrefixIsLongest(u);
    if d == [] then None else Some(DigitsValue(d))
  }

  lemma {:induction false} DigitPrefixOfDigits(s: string)
    requires AllDigits(s)
    ensures DigitPrefix(s) == s
  {
    if |s| > 0 {
      DigitPrefixOfDigits(s[1..]);
    }
  }

  lemma TrimStartNoLeadingSpace(s: string)
    requires s != [] && !IsWhitespace(s[0])
    ensures TrimStart(s) == s
  {
  }

  lemma ParseUnsignedOfDigits(d: string)
    requires d != [] && AllDigits(d)
    ensures ParseUnsigned(d) == Some(DigitsValue(d))
  {
    DigitPrefixOfDigits(d);
  }

  /** A digit string parses to its value. */
  lemma ParseIntOfDigits(d: string)
    requires d != [] && AllDigits(d)
    ensures ParseInt(d) == Some(DigitsValue(d))
  {
    assert IsDigit(d[0]);
    TrimStartNoLeadingSpace(d);
    ParseUnsignedOfDigits(d);
  }

  /** A minus sign followed by a digit string parses to minus its value. */
  lemma ParseIntOfNegatedDigits(t: string)
    requires |t| > 1 && t[0] == '-' && AllDigits(t[1..])
    ensures ParseInt(t) == Some(-(DigitsValue(t[1..]) as int))
  {
    TrimStartNoLeadingSpace(t);
    ParseSignedOfNegatedDigits(t);
  }

  lemma ParseSignedOfNegatedDigits(t: string)
    requires |t| > 1 && t[0] == '-' && AllDigits(t[1..])
    ensures ParseSigned(t) == Some(-(DigitsValue(t[1..]) as int))
  {
    ParseUnsignedOfDigits(t[1..]);
  }

  /** `parseInt(String(n), 10) == n` for every non-negative integer. */
  lemma ParseIntOfNatToString(n: nat)
    ensures ParseInt(NatToString(n)) == Some(n)
  {
    NatToStringDigits(n);
    ParseIntOfDigits(NatToString(n));
    DigitsValueOfNatToString(n);
  }

  /** A minus sign before `String(n)` parses back to `-n`. */
  lemma ParseIntOfMinusNatToString(n: nat, s: string)
    requires |s| > 1 && s[0] == '-' && s[1..] == NatToString(n)
    ensures ParseInt(s) == Some(-(n as int))
  {
    NatToStringDigits(n);
    ParseIntOfNegatedDigits(s);
    DigitsValueOfNatToString(n);
  }

  /** `parseInt(String(i), 10) == i` for every integer. */
  lemma ParseIntOfIntToString(i: int)
    ensures ParseInt(IntToString(i)) == Some(i)
  {
    if i < 0 {
      NatToStringDigits(-i);
      var s := IntToString(i);
      assert s[1..] == NatToString(-i);
      ParseIntOfMinusNatToString(-i, s);
    } else {
      ParseIntOfNatToString(i);
    }
  }

  // ---------------------------------------------------------------------
  // Substring containment
  // ---------------------------------------------------------------------

  /** `needle` occurs somewhere in `hay`. */
  predicate Contains(hay: string, needle: string)
    decreases |hay|
  {
    needle <= hay || (|hay| > 0 && Contains(hay[1..], needle))
  }

  /** `needle` occurs in `hay` starting at index `i`. */
  predicate OccursAt(hay: string, needle: string, i: int) {
    0 <= i <= |hay| - |needle| && hay[i..i + |needle|] == needle
  }

  /** Containment agrees with "`needle` occurs at some index of `hay`". */
  lemma {:induction false} ContainsIffOccurs(hay: string, needle: string)
    decreases |hay|
    ensures Contains(hay, needle) <==> exists i :: OccursAt(hay, needle, i)
  {
    if needle <= hay {
      assert OccursAt(hay, needle, 0);
    } else if |hay| == 0 {
    } else {
      ContainsIffOccurs(hay[1..], needle);
      if Contains(hay[1..], needle) {
        var i :| OccursAt(hay[1..], needle, i);
        SliceOfTail(hay, i, |needle|);
        assert OccursAt(hay, needle, i + 1);
      }
      if exists i :: OccursAt(hay, needle, i) {
        var i :| OccursAt(hay, needle, i);
        assert i != 0;
        SliceOfTail(hay, i - 1, |needle|);
        assert OccursAt(hay[1..], needle, i - 1);
      }
    }
  }

  lemma SliceOfTail(hay: string, i: nat, n: nat)
    requires 0 < |hay| && i + n <= |hay| - 1
    ensures hay[1..][i..i + n] == hay[i + 1..i + 1 + n]
  {
    var a, b := hay[1..][i..i + n], hay[i + 1..i + 1 + n];
    assert forall k :: 0 <= k < n ==> a[k] == b[k];
  }
}
