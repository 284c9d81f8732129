/**
 * The JavaScript string operations the core relies on: `trim`, `toLowerCase`
 * and `startsWith`, over strings seen as sequences of characters.
 */
module Text {

  /** A character that `String.prototype.trim` strips: the ECMAScript
      WhiteSpace and LineTerminator code points (tab to carriage return,
      space, no-break space, the Unicode space separators, the line and
      paragraph separators and the byte order mark). */
  predicate IsJsWhiteSpace(c: char) {
    var x := c as int;
    (0x09 <= x <= 0x0D) || x == 0x20 || x == 0xA0 || x == 0x1680 ||
    (0x2000 <= x <= 0x200A) || x == 0x2028 || x == 0x2029 || x == 0x202F ||
    x == 0x205F || x == 0x3000 || x == 0xFEFF
  }

  /** Every character of `s` in `[lo, hi)` is whitespace. */
  predicate BlankBetween(s: string, lo: int, hi: int)
    requires 0 <= lo <= hi <= |s|
  {
    forall k :: lo <= k < hi ==> IsJsWhiteSpace(s[k])
  }

  predicate IsBlank(s: string) {
    BlankBetween(s, 0, |s|)
  }

  /** Index of the first non-blank character at or after `i`, or `|s|`. */
  function SkipLeading(s: string, i: nat): (k: nat)
    requires i <= |s| && BlankBetween(s, 0, i)
    ensures i <= k <= |s| && BlankBetween(s, 0, k)
    ensures k < |s| ==> !IsJsWhiteSpace(s[k])
    decreases |s| - i
  {
    if i < |s| && IsJsWhiteSpace(s[i]) then SkipLeading(s, i + 1) else i
  }

  /** Index just past the last non-blank character in `[lo, j)`, or `lo`. */
  function SkipTrailing(s: string, lo: nat, j: nat): (k: nat)
    requires lo <= j <= |s| && BlankBetween(s, j, |s|)
    ensures lo <= k <= j && BlankBetween(s, k, |s|)
    ensures k > lo ==> !IsJsWhiteSpace(s[k - 1])
    decreases j
  {
    if j > lo && IsJsWhiteSpace(s[j - 1]) then SkipTrailing(s, lo, j - 1) else j
  }

  /** `s.trim()`: drops leading and trailing whitespace. The result is empty
      exactly when `s` is blank, and otherwise starts and ends with a
      non-blank character. */
  function Trim(s: string): (r: string)
    ensures r != [] ==> !IsJsWhiteSpace(r[0]) && !IsJsWhiteSpace(r[|r| - 1])
    ensures r == [] <==> IsBlank(s)
  {
    var i := SkipLeading(s, 0);
    var j := SkipTrailing(s, i, |s|);
    assert j == i ==> BlankBetween(s, 0, |s|);
    assert j > i ==> !IsJsWhiteSpace(s[i]);
    s[i..j]
  }

  /** What `trim` removes is whitespace on both sides, and only that: the
      result is the slice of `s` left between two blank runs. */
  lemma TrimIsInnerSlice(s: string)
    ensures exists i, j ::
      0 <= i <= j <= |s| && Trim(s) == s[i..j] && BlankBetween(s, 0, i) && BlankBetween(s, j, |s|)
  {
    var i := SkipLeading(s, 0);
    var j := SkipTrailing(s, i, |s|);
    assert Trim(s) == s[i..j];
  }

  /** Trimming twice is trimming once. */
  lemma TrimIdempotent(s: string)
    ensures Trim(Trim(s)) == Trim(s)
  {
    var r := Trim(s);
    if r != [] {
      assert SkipLeading(r, 0) == 0;
      assert SkipTrailing(r, 0, |r|) == |r|;
    }
  }

  /** ASCII `toLowerCase` of one character. */
  function LowerChar(c: char): (d: char)
    ensures !('A' <= d <= 'Z')
    ensures ('A' <= c <= 'Z') || d == c
  {
    if 'A' <= c <= 'Z' then (c as int + 32) as char else c
  }

  /** `s.toLowerCase()` (letters A-Z only): no upper-case letter survives and
      every other character is kept in place. */
  function ToLower(s: string): (r: string)
    ensures |r| == |s|
    ensures forall i :: 0 <= i < |s| ==> r[i] == LowerChar(s[i])
  {
    seq(|s|, i requires 0 <= i < |s| => LowerChar(s[i]))
  }

  lemma ToLowerIdempotent(s: string)
    ensures ToLower(ToLower(s)) == ToLower(s)
  {
  }

  /** Both trimming bounds depend only on which positions hold whitespace. */
  lemma {:induction false} SkipLeadingSameShape(s: string, t: string, i: nat)
    requires |s| == |t| && i <= |s| && BlankBetween(s, 0, i) && BlankBetween(t, 0, i)
    requires forall k :: 0 <= k < |s| ==> IsJsWhiteSpace(s[k]) == IsJsWhiteSpace(t[k])
    ensures SkipLeading(s, i) == SkipLeading(t, i)
    decreases |s| - i
  {
    if i < |s| && IsJsWhiteSpace(s[i]) {
      SkipLeadingSameShape(s, t, i + 1);
    }
  }

  lemma {:induction false} SkipTrailingSameShape(s: string, t: string, lo: nat, j: nat)
    requires |s| == |t| && lo <= j <= |s| && BlankBetween(s, j, |s|) && BlankBetween(t, j, |t|)
    requires forall k :: 0 <= k < |s| ==> IsJsWhiteSpace(s[k]) == IsJsWhiteSpace(t[k])
    ensures SkipTrailing(s, lo, j) == SkipTrailing(t, lo, j)
    decreases j
  {
    if j > lo && IsJsWhiteSpace(s[j - 1]) {
      SkipTrailingSameShape(s, t, lo, j - 1);
    }
  }

  /** Lower-casing keeps whitespace and non-whitespace apart. */
  lemma ToLowerSameShape(s: string)
    ensures forall k :: 0 <= k < |s| ==> IsJsWhiteSpace(s[k]) == IsJsWhiteSpace(ToLower(s)[k])
  {
  }

  lemma ToLowerSlice(s: string, i: nat, j: nat)
    requires i <= j <= |s|
    ensures ToLower(s)[i..j] == ToLower(s[i..j])
  {
  }

  /** Lower-casing leaves whitespace alone, so it commutes with trimming. */
  lemma TrimToLowerCommute(s: string)
    ensures Trim(ToLower(s)) == ToLower(Trim(s))
  {
    var l := ToLower(s);
    ToLowerSameShape(s);
    SkipLeadingSameShape(s, l, 0);
    var i := SkipLeading(s, 0);
    SkipTrailingSameShape(s, l, i, |s|);
    var j := SkipTrailing(s, i, |s|);
    assert Trim(s) == s[i..j];
    assert Trim(l) == l[i..j];
    ToLowerSlice(s, i, j);
  }

  /** `s.startsWith(prefix)`: `s` is `prefix` followed by some rest. */
  predicate StartsWith(s: string, prefix: string): (b: bool)
    ensures b <==> |prefix| <= |s| && s == prefix + s[|prefix|..]
  {
    |prefix| <= |s| && s[..|prefix|] == prefix
  }

  /** How many UTF-16 code units a character takes: two (a surrogate pair)
      above U+FFFF, one otherwise. */
  function CodeUnits(c: char): nat {
    if c as int > 0xFFFF then 2 else 1
  }

  /** `s.length`: JavaScript strings count UTF-16 code units, so a character
      outside the Basic Multilingual Plane counts twice. */
  function JsLength(s: string): (n: nat)
    ensures |s| <= n <= 2 * |s|
  {
    if s == [] then 0 else CodeUnits(s[0]) + JsLength(s[1..])
  }

  /** `length` agrees with the number of characters exactly when no
      character lies above U+FFFF. */
  lemma {:induction false} JsLengthBmp(s: string)
    ensures JsLength(s) == |s| <==> forall i :: 0 <= i < |s| ==> s[i] as int <= 0xFFFF
  {
    if s != [] {
      JsLengthBmp(s[1..]);
      if forall i :: 0 <= i < |s| ==> s[i] as int <= 0xFFFF {
        forall i | 0 <= i < |s[1..]| ensures s[1..][i] as int <= 0xFFFF {
          assert s[1..][i] == s[i + 1];
        }
      } else {
        var i :| 0 <= i < |s| && s[i] as int > 0xFFFF;
        if i > 0 {
          assert s[1..][i - 1] == s[i];
        }
      }
    }
  }

  /** `/\d/` without the `u` flag: the ASCII digits only. */
  predicate IsDigit(c: char) {
    '0' <= c <= '9'
  }

  predicate AllDigits(s: string) {
    forall i :: 0 <= i < |s| ==> IsDigit(s[i])
  }
}
