/**
 * The Python `str` operations the backend relies on: `strip()`, `startswith`,
 * `in` (substring test), `lower()`, `split('\n')` and `'\n'.join(...)`.
 */
module Strings {

  /** Python's `str.isspace()` for one character: exactly the characters `strip()` removes. */
  predicate IsSpace(c: char) {
    || c == ' '
    || ('\t' <= c <= '\r')                  // tab, line feed, vertical tab, form feed, carriage return
    || ('\U{1C}' <= c <= '\U{1F}')          // file, group, record and unit separators
    || c == '\U{85}' || c == '\U{A0}' || c == '\U{1680}'
    || ('\U{2000}' <= c <= '\U{200A}')
    || c == '\U{2028}' || c == '\U{2029}' || c == '\U{202F}' || c == '\U{205F}' || c == '\U{3000}'
  }

  /** The index of the first non-whitespace character at or after `i` (or `|s|`). */
  function SkipSpaces(s: string, i: nat): (r: nat)
    requires i <= |s|
    ensures i <= r <= |s|
    ensures r < |s| ==> !IsSpace(s[r])
    decreases |s| - i
  {
    if i < |s| && IsSpace(s[i]) then SkipSpaces(s, i + 1) else i
  }

  /** One past the last non-whitespace character before `j` (or 0). */
  function BackSpaces(s: string, j: nat): (r: nat)
    requires j <= |s|
    ensures r <= j
    ensures r > 0 ==> !IsSpace(s[r - 1])
    decreases j
  {
    if j > 0 && IsSpace(s[j - 1]) then BackSpaces(s, j - 1) else j
  }

  /** `s.lstrip()`: what is left after dropping the leading whitespace. */
  function StripLeft(s: string): (r: string)
    ensures r == [] || !IsSpace(r[0])
  {
    s[SkipSpaces(s, 0)..]
  }

  /** `s.rstrip()`: what is left after dropping the trailing whitespace. */
  function StripRight(s: string): (r: string)
    ensures r == [] || !IsSpace(r[|r| - 1])
  {
    s[..BackSpaces(s, |s|)]
  }

  /** `s.strip()`. */
  function Strip(s: string): (r: string)
    ensures r == [] || (!IsSpace(r[0]) && !IsSpace(r[|r| - 1]))
  {
    StripRight(StripLeft(s))
  }

  /** Everything `SkipSpaces` passes over is whitespace. */
  lemma {:induction false} SkipSpacesSkipsSpaces(s: string, i: nat)
    requires i <= |s|
    ensures forall k :: i <= k < SkipSpaces(s, i) ==> IsSpace(s[k])
    decreases |s| - i
  {
    if i < |s| && IsSpace(s[i]) {
      SkipSpacesSkipsSpaces(s, i + 1);
    }
  }

  /** Over a run of whitespace to the end, `SkipSpaces` reaches the end. */
  lemma {:induction false} SkipAllSpaces(s: string, i: nat)
    requires i <= |s|
    requires forall k :: i <= k < |s| ==> IsSpace(s[k])
    ensures SkipSpaces(s, i) == |s|
    decreases |s| - i
  {
    if i < |s| {
      SkipAllSpaces(s, i + 1);
    }
  }

  /** Everything `BackSpaces` passes over is whitespace. */
  lemma {:induction false} BackSpacesSkipsSpaces(s: string, j: nat)
    requires j <= |s|
    ensures forall k :: BackSpaces(s, j) <= k < j ==> IsSpace(s[k])
    decreases j
  {
    if j > 0 && IsSpace(s[j - 1]) {
      BackSpacesSkipsSpaces(s, j - 1);
    }
  }

  /**
   * `s.strip()` is `s` with exactly its leading and trailing whitespace cut off:
   * it is the slice `s[lo..hi]`, everything before `lo` and from `hi` on is
   * whitespace, and the slice neither starts nor ends with whitespace.
   */
  lemma StripSlice(s: string) returns (lo: nat, hi: nat)
    ensures lo <= hi <= |s| && Strip(s) == s[lo..hi]
    ensures forall k :: 0 <= k < lo ==> IsSpace(s[k])
    ensures forall k :: hi <= k < |s| ==> IsSpace(s[k])
    ensures lo < hi ==> !IsSpace(s[lo]) && !IsSpace(s[hi - 1])
  {
    lo := SkipSpaces(s, 0);
    SkipSpacesSkipsSpaces(s, 0);
    var t := s[lo..];
    var b := BackSpaces(t, |t|);
    BackSpacesSkipsSpaces(t, |t|);
    hi := lo + b;
    assert Strip(s) == t[..b] == s[lo..hi];
    assert forall k :: hi <= k < |s| ==> s[k] == t[k - lo];
  }

  /** `strip()` leaves nothing exactly when the text is all whitespace (Python: `not s.strip()`). */
  lemma StripEmptyIffBlank(s: string)
    ensures Strip(s) == [] <==> forall i :: 0 <= i < |s| ==> IsSpace(s[i])
  {
    var lo := SkipSpaces(s, 0);
    var l := s[lo..];
    var hi := BackSpaces(l, |l|);
    SkipSpacesSkipsSpaces(s, 0);
    BackSpacesSkipsSpaces(l, |l|);
    assert Strip(s) == l[..hi];
    if hi == 0 {
      forall i | 0 <= i < |s| ensures IsSpace(s[i]) {
        if i >= lo {
          assert s[i] == l[i - lo];
        }
      }
    }
    if forall i :: 0 <= i < |s| ==> IsSpace(s[i]) {
      SkipAllSpaces(s, 0);
    }
  }

  /** Text that neither begins nor ends with whitespace is left alone by `strip()`. */
  lemma StripUnchanged(s: string)
    requires s == [] || (!IsSpace(s[0]) && !IsSpace(s[|s| - 1]))
    ensures Strip(s) == s
  {
    assert SkipSpaces(s, 0) == 0;
    assert s[0..] == s;
    assert BackSpaces(s, |s|) == |s|;
  }

  /** Stripping twice is stripping once. */
  lemma StripIdempotent(s: string)
    ensures Strip(Strip(s)) == Strip(s)
  {
    StripUnchanged(Strip(s));
  }

  /** `strip()` keeps a prefix that holds no whitespace. */
  lemma StripKeepsPrefix(s: string, n: nat)
    requires 0 < n <= |s|
    requires forall i :: 0 <= i < n ==> !IsSpace(s[i])
    ensures n <= |Strip(s)| && Strip(s)[..n] == s[..n]
  {
    assert SkipSpaces(s, 0) == 0;
    assert StripLeft(s) == s;
    var hi := BackSpaces(s, |s|);
    BackSpacesSkipsSpaces(s, |s|);
    assert !IsSpace(s[n - 1]);
    assert n <= hi;
    assert Strip(s) == s[..hi];
  }

  /** `s.startswith(p)`. */
  predicate StartsWith(s: string, p: string) {
    |p| <= |s| && s[..|p|] == p
  }

  /** `w` occurs in `s` starting at offset `k`. */
  predicate OccursAt(s: string, w: string, k: int) {
    0 <= k && k + |w| <= |s| && s[k..k + |w|] == w
  }

  /** An occurrence in `s[1..]` is an occurrence in `s` one place later. */
  lemma OccursShift(s: string, w: string)
    requires |s| > 0
    ensures forall k :: 1 <= k && OccursAt(s, w, k) ==> OccursAt(s[1..], w, k - 1)
    ensures forall k :: OccursAt(s[1..], w, k) ==> OccursAt(s, w, k + 1)
  {
    forall k | 1 <= k && OccursAt(s, w, k) ensures OccursAt(s[1..], w, k - 1) {
      assert s[1..][k - 1..k - 1 + |w|] == s[k..k + |w|];
    }
    forall k | OccursAt(s[1..], w, k) ensures OccursAt(s, w, k + 1) {
      assert s[1..][k..k + |w|] == s[k + 1..k + 1 + |w|];
    }
  }

  /** `w in s` for strings: `w` occurs in `s` as a contiguous piece. */
  predicate Contains(s: string, w: string): (r: bool)
    ensures r <==> exists k :: OccursAt(s, w, k)
    decreases |s|
  {
    if StartsWith(s, w) then
      assert OccursAt(s, w, 0);
      true
    else if |s| == 0 then false
    else
      OccursShift(s, w);
      Contains(s[1..], w)
  }

  /** `Contains` means an occurrence at some offset. */
  lemma {:induction false} ContainsAt(s: string, w: string, k: nat)
    requires k + |w| <= |s| && s[k..k + |w|] == w
    ensures Contains(s, w)
    decreases k
  {
    if k > 0 {
      assert s[1..][k - 1..k - 1 + |w|] == s[k..k + |w|];
      ContainsAt(s[1..], w, k - 1);
    }
  }

  const KelvinSign: char := '\U{212A}'

  /**
   * Python's `str.lower()` on one character, for the cases that produce an ASCII
   * letter: `A`..`Z`, and the Kelvin sign, which lowers to `k`.
   */
  function LowerChar(c: char): (r: char)
    ensures 'A' <= c <= 'Z' ==> 'a' <= r <= 'z'
  {
    if 'A' <= c <= 'Z' then (c as int - 'A' as int + 'a' as int) as char
    else if c == KelvinSign then 'k'
    else c
  }

  /** `s.lower()`, character by character. */
  function Lower(s: string): (r: string)
    ensures |r| == |s|
    ensures forall i :: 0 <= i < |s| ==> r[i] == LowerChar(s[i])
  {
    if s == [] then [] else [LowerChar(s[0])] + Lower(s[1..])
  }

  /** ASCII `str.upper()`, used to state case-insensitivity. */
  function UpperChar(c: char): (r: char)
    ensures 'a' <= c <= 'z' ==> 'A' <= r <= 'Z'
  {
    if 'a' <= c <= 'z' then (c as int - 'a' as int + 'A' as int) as char else c
  }

  function Upper(s: string): (r: string)
    ensures |r| == |s|
    ensures forall i :: 0 <= i < |s| ==> r[i] == UpperChar(s[i])
  {
    if s == [] then [] else [UpperChar(s[0])] + Upper(s[1..])
  }

  /** Lower-casing forgets whether a letter was upper-cased first. */
  lemma LowerOfUpper(s: string)
    ensures Lower(Upper(s)) == Lower(s)
  {
    assert forall i :: 0 <= i < |s| ==> LowerChar(UpperChar(s[i])) == LowerChar(s[i]);
  }

  /** Lower-casing twice is lower-casing once. */
  lemma LowerIdempotent(s: string)
    ensures Lower(Lower(s)) == Lower(s)
  {
    assert forall i :: 0 <= i < |s| ==> LowerChar(LowerChar(s[i])) == LowerChar(s[i]);
  }

  /**
   * `s.split('\n')`: the pieces between line feeds; there is always one more piece
   * than there are line feeds, so the empty string splits into one empty piece.
   */
  function Split(s: string): (r: seq<string>)
    ensures |r| >= 1
    ensures forall k :: 0 <= k < |r| ==> '\n' !in r[k]
    decreases |s|
  {
    if s == [] then [[]]
    else
      var rest := Split(s[1..]);
      if s[0] == '\n' then [[]] + rest
      else [[s[0]] + rest[0]] + rest[1..]
  }

  /** `'\n'.join(lines)`. */
  function Join(lines: seq<string>): (r: string)
    ensures |lines| > 0 ==> StartsWith(r, lines[0])
  {
    if |lines| == 0 then []
    else if |lines| == 1 then lines[0]
    else lines[0] + "\n" + Join(lines[1..])
  }

  /** Joining the pieces of a split gives back the original text. */
  lemma {:induction false} JoinSplit(s: string)
    ensures Join(Split(s)) == s
    decreases |s|
  {
    if s != [] {
      var rest := Split(s[1..]);
      JoinSplit(s[1..]);
      if s[0] == '\n' {
        assert Split(s) == [[]] + rest;
        assert Join(Split(s)) == [] + "\n" + Join(rest);
      } else {
        if |rest| == 1 {
          assert Join(Split(s)) == [s[0]] + rest[0];
        } else {
          assert rest == [rest[0]] + rest[1..];
          assert Join(rest) == rest[0] + "\n" + Join(rest[1..]);
          assert Join(Split(s)) == ([s[0]] + rest[0]) + "\n" + Join(rest[1..]);
        }
        assert s == [s[0]] + s[1..];
      }
    }
  }

  /** A line with no line feed, followed by a line feed, is split off as the first piece. */
  lemma {:induction false} SplitAfterLine(a: string, b: string)
    requires '\n' !in a
    ensures Split(a + "\n" + b) == [a] + Split(b)
    decreases |a|
  {
    if a == [] {
      assert ([] + "\n" + b)[1..] == b;
    } else {
      assert (a + "\n" + b)[1..] == a[1..] + "\n" + b;
      SplitAfterLine(a[1..], b);
      assert [a[0]] + a[1..] == a;
    }
  }

  /** Text without a line feed splits into itself. */
  lemma {:induction false} SplitSingle(a: string)
    requires '\n' !in a
    ensures Split(a) == [a]
    decreases |a|
  {
    if a != [] {
      SplitSingle(a[1..]);
      assert [a[0]] + a[1..] == a;
    }
  }

  /** Splitting what was joined gives back the lines, when no line holds a line feed. */
  lemma {:induction false} SplitJoin(lines: seq<string>)
    requires |lines| >= 1
    requires forall k :: 0 <= k < |lines| ==> '\n' !in lines[k]
    ensures Split(Join(lines)) == lines
    decreases |lines|
  {
    if |lines| == 1 {
      SplitSingle(lines[0]);
    } else {
      SplitJoin(lines[1..]);
      SplitAfterLine(lines[0], Join(lines[1..]));
      assert lines == [lines[0]] + lines[1..];
    }
  }

  /** Joining two non-empty runs of lines puts one line feed between them. */
  lemma {:induction false} JoinAppend(a: seq<string>, b: seq<string>)
    requires |a| >= 1 && |b| >= 1
    ensures Join(a + b) == Join(a) + "\n" + Join(b)
    decreases |a|
  {
    if |a| == 1 {
      assert (a + b)[1..] == b;
    } else {
      assert (a + b)[1..] == a[1..] + b;
      JoinAppend(a[1..], b);
    }
  }

  /** A line feed followed by a line with no line feed splits that line off as the last piece. */
  lemma SplitBeforeLine(a: string, b: string)
    requires '\n' !in b
    ensures Split(a + "\n" + b) == Split(a) + [b]
  {
    var lines := Split(a) + [b];
    JoinAppend(Split(a), [b]);
    JoinSplit(a);
    assert forall k :: 0 <= k < |lines| ==> '\n' !in lines[k] by {
      forall k | 0 <= k < |lines| ensures '\n' !in lines[k] {
        if k < |Split(a)| { assert lines[k] == Split(a)[k]; }
      }
    }
    SplitJoin(lines);
  }

  /** The first piece of a split starts with any prefix of the text that has no line feed. */
  lemma {:induction false} SplitFirstStartsWith(s: string, p: string)
    requires StartsWith(s, p) && '\n' !in p
    ensures StartsWith(Split(s)[0], p)
    decreases |s|
  {
    if p != [] {
      assert p[0] == s[0] && p[0] != '\n';
      assert StartsWith(s[1..], p[1..]) by {
        assert s[1..][..|p| - 1] == s[..|p|][1..];
      }
      assert '\n' !in p[1..] by {
        assert forall c :: c in p[1..] ==> c in p;
      }
      SplitFirstStartsWith(s[1..], p[1..]);
      var rest := Split(s[1..]);
      assert Split(s)[0] == [s[0]] + rest[0];
      assert p == [p[0]] + p[1..];
    }
  }
}
