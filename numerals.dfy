/**
 * Decimal numerals as Python writes and reads them: `str(n)` / f-string
 * interpolation of a non-negative integer, and `int(s)` on a string.
 */
module Numerals {
  import opened Wrappers
  import opened Strings

  predicate IsDigit(c: char) {
    '0' <= c <= '9'
  }

  function DigitChar(d: nat): (c: char)
    requires d < 10
    ensures IsDigit(c)
  {
    ('0' as int + d) as char
  }

  function DigitValue(c: char): (d: nat)
    requires IsDigit(c)
    ensures d < 10 && DigitChar(d) == c
  {
    c as int - '0' as int
  }

  /** `str(n)` for `n >= 0`: the shortest decimal numeral, no sign, no leading zero. */
  function NatToString(n: nat): (s: string)
    ensures |s| >= 1
    ensures forall i :: 0 <= i < |s| ==> IsDigit(s[i])
    ensures s[0] == '0' ==> n == 0
  {
    if n < 10 then [DigitChar(n)] else NatToString(n / 10) + [DigitChar(n % 10)]
  }

  /**
   * The digit part `int()` accepts: at least one digit, and underscores only as
   * single separators between two digits (`1_000`, but not `_1`, `1_` or `1__0`).
   */
  predicate WellFormedDigits(d: string) {
    |d| > 0 && forall i :: 0 <= i < |d| ==> IsDigit(d[i]) || IsSeparatorAt(d, i)
  }

  /** Position `i` holds an underscore with a digit on either side. */
  predicate IsSeparatorAt(d: string, i: nat)
    requires i < |d|
  {
    d[i] == '_' && 0 < i < |d| - 1 && IsDigit(d[i - 1]) && IsDigit(d[i + 1])
  }

  /** The value of a run of digits and separators, reading the separators as nothing. */
  function DigitsValue(d: string): nat
    requires forall i :: 0 <= i < |d| ==> IsDigit(d[i]) || d[i] == '_'
  {
    if d == [] then 0
    else if d[|d| - 1] == '_' then DigitsValue(d[..|d| - 1])
    else 10 * DigitsValue(d[..|d| - 1]) + DigitValue(d[|d| - 1])
  }

  /**
   * The whitespace `int()` skips around a numeral. It first turns every non-ASCII
   * `str.isspace()` character into a space, then skips only the space and `\t`..`\r`.
   * So the separators U+001C..U+001F, which `strip()` removes, are not skipped.
   * `SkipIntSpaces`, `BackIntSpaces` and `TrimForInt` below are `SkipSpaces`,
   * `BackSpaces` and `Strip` of `Strings` with this narrower predicate in place of
   * `IsSpace`.
   */
  predicate IsIntSpace(c: char) {
    IsSpace(c) && !('\U{1C}' <= c <= '\U{1F}')
  }

  /** The index of the first character at or after `i` that `int()` does not skip (or `|s|`). */
  function SkipIntSpaces(s: string, i: nat): (r: nat)
    requires i <= |s|
    ensures i <= r <= |s|
    ensures r < |s| ==> !IsIntSpace(s[r])
    decreases |s| - i
  {
    if i < |s| && IsIntSpace(s[i]) then SkipIntSpaces(s, i + 1) else i
  }

  /** One past the last character before `j` that `int()` does not skip (or 0). */
  function BackIntSpaces(s: string, j: nat): (r: nat)
    requires j <= |s|
    ensures r <= j
    ensures r > 0 ==> !IsIntSpace(s[r - 1])
    decreases j
  {
    if j > 0 && IsIntSpace(s[j - 1]) then BackIntSpaces(s, j - 1) else j
  }

  /** What `int()` reads once the whitespace around it is skipped. */
  function TrimForInt(s: string): (r: string)
    ensures r == [] || (!IsIntSpace(r[0]) && !IsIntSpace(r[|r| - 1]))
  {
    var t := s[SkipIntSpaces(s, 0)..];
    t[..BackIntSpaces(t, |t|)]
  }

  /** Text with no skippable whitespace at either end is read as it is. */
  lemma TrimForIntUnchanged(s: string)
    requires s == [] || (!IsIntSpace(s[0]) && !IsIntSpace(s[|s| - 1]))
    ensures TrimForInt(s) == s
  {
  }

  /** `SkipIntSpaces` stops at the first character it may not skip. */
  lemma {:induction false} SkipIntSpacesTo(s: string, i: nat, k: nat)
    requires i <= k <= |s|
    requires forall m :: i <= m < k ==> IsIntSpace(s[m])
    requires k == |s| || !IsIntSpace(s[k])
    ensures SkipIntSpaces(s, i) == k
    decreases k - i
  {
    if i < k {
      SkipIntSpacesTo(s, i + 1, k);
    }
  }

  /** `BackIntSpaces` stops after the last character it may not skip. */
  lemma {:induction false} BackIntSpacesTo(s: string, j: nat, k: nat)
    requires k <= j <= |s|
    requires forall m :: k <= m < j ==> IsIntSpace(s[m])
    requires k == 0 || !IsIntSpace(s[k - 1])
    ensures BackIntSpaces(s, j) == k
    decreases j - k
  {
    if k < j {
      BackIntSpacesTo(s, j - 1, k);
    }
  }

  /**
   * `int(s)` for a string: the whitespace `int()` skips is ignored at both ends,
   * an optional `+` or `-` sign comes first, then well-formed digits; anything
   * else raises `ValueError`, modelled as `None`.
   */
  function ParseInt(s: string): (r: Option<int>)
    ensures r.Some? ==> |TrimForInt(s)| > 0
  {
    var t := TrimForInt(s);
    if |t| > 0 && (t[0] == '+' || t[0] == '-') then
      var body := t[1..];
      if WellFormedDigits(body) then
        var v: int := DigitsValue(body);
        Some(if t[0] == '-' then -v else v)
      else None
    else if WellFormedDigits(t) then Some(DigitsValue(t))
    else None
  }

  /** Reading back what `NatToString` wrote gives the number. */
  lemma {:induction false} DigitsValueOfNatToString(n: nat)
    ensures DigitsValue(NatToString(n)) == n
    decreases n
  {
    var s := NatToString(n);
    if n >= 10 {
      DigitsValueOfNatToString(n / 10);
      assert s[..|s| - 1] == NatToString(n / 10);
    }
  }

  /** A numeral as `NatToString` writes it is a well-formed digit part. */
  lemma NatToStringWellFormed(n: nat)
    ensures WellFormedDigits(NatToString(n))
  {
    var s := NatToString(n);
    assert forall i :: 0 <= i < |s| ==> IsDigit(s[i]);
  }

  /** `int(str(n)) == n` for every `n >= 0`. */
  lemma ParseNatToString(n: nat)
    ensures ParseInt(NatToString(n)) == Some(n)
  {
    var s := NatToString(n);
    assert !IsIntSpace(s[0]) && !IsIntSpace(s[|s| - 1]);
    TrimForIntUnchanged(s);
    NatToStringWellFormed(n);
    DigitsValueOfNatToString(n);
  }

  /** `int('-' + str(n)) == -n`. */
  lemma ParseNegativeNatToString(n: nat)
    ensures ParseInt("-" + NatToString(n)) == Some(-(n as int))
  {
    var s := NatToString(n);
    var t := "-" + s;
    assert !IsIntSpace(t[0]) && !IsIntSpace(t[|t| - 1]);
    TrimForIntUnchanged(t);
    assert t[1..] == s;
    NatToStringWellFormed(n);
    DigitsValueOfNatToString(n);
  }

  /** Different numbers are written differently. */
  lemma NatToStringInjective(m: nat, n: nat)
    requires NatToString(m) == NatToString(n)
    ensures m == n
  {
    ParseNatToString(m);
    ParseNatToString(n);
  }

  /** Skippable whitespace around a text that does not start or end with any is trimmed off exactly. */
  lemma TrimPadded(pre: string, d: string, post: string)
    requires forall i :: 0 <= i < |pre| ==> IsIntSpace(pre[i])
    requires forall i :: 0 <= i < |post| ==> IsIntSpace(post[i])
    requires |d| > 0 && !IsIntSpace(d[0]) && !IsIntSpace(d[|d| - 1])
    ensures TrimForInt(pre + d + post) == d
  {
    var s := pre + d + post;
    assert forall m :: 0 <= m < |pre| ==> s[m] == pre[m];
    assert s[|pre|] == d[0];
    SkipIntSpacesTo(s, 0, |pre|);
    var t := s[|pre|..];
    assert t == d + post;
    assert forall m :: |d| <= m < |t| ==> t[m] == post[m - |d|];
    BackIntSpacesTo(t, |t|, |d|);
    assert t[..|d|] == d;
  }

  /** Whitespace that `int()` skips may surround the numeral: `int(' 30\n') == 30`. */
  lemma ParsePaddedNatToString(pre: string, n: nat, post: string)
    requires forall i :: 0 <= i < |pre| ==> IsIntSpace(pre[i])
    requires forall i :: 0 <= i < |post| ==> IsIntSpace(post[i])
    ensures ParseInt(pre + NatToString(n) + post) == Some(n)
  {
    var d := NatToString(n);
    assert !IsIntSpace(d[0]) && !IsIntSpace(d[|d| - 1]);
    TrimPadded(pre, d, post);
    TrimForIntUnchanged(d);
    ParseNatToString(n);
  }

  /**
   * An information separator (U+001C..U+001F) before the numeral makes `int()`
   * raise, although `strip()` would have removed it.
   */
  lemma SeparatorBeforeNumeralRejected(c: char, n: nat)
    requires '\U{1C}' <= c <= '\U{1F}'
    ensures IsSpace(c)
    ensures ParseInt([c] + NatToString(n)) == None
  {
    var s := [c] + NatToString(n);
    assert !IsIntSpace(s[0]) && !IsIntSpace(s[|s| - 1]);
    TrimForIntUnchanged(s);
    assert !IsDigit(s[0]) && !IsSeparatorAt(s, 0);
  }
}
