/**
 * The fragment of JavaScript regular expressions the validators use:
 * literal characters, character ranges, concatenation, alternation and
 * exact repetition `{n}`. A pattern is a value of `Re`; `Matches(r, s)` is
 * "r matches the whole of s", which is what `^(?:r)$` tests, and `Found(r, s)`
 * is what `/r/.test(s)` (no anchors, no flags) tests.
 */
module Regex {

  datatype Re =
    | Empty                       // matches only ""
    | Lit(c: char)                // a literal character
    | Range(lo: char, hi: char)   // the character class [lo-hi]
    | Cat(a: Re, b: Re)           // a followed by b
    | Alt(a: Re, b: Re)           // a|b
    | Rep(x: Re, n: nat)          // x{n}

  predicate Matches(r: Re, s: string)
    decreases r, 0
  {
    match r
    case Empty => s == []
    case Lit(c) => s == [c]
    case Range(lo, hi) => |s| == 1 && lo <= s[0] <= hi
    case Cat(a, b) => exists k :: 0 <= k <= |s| && Matches(a, s[..k]) && Matches(b, s[k..])
    case Alt(a, b) => Matches(a, s) || Matches(b, s)
    case Rep(x, n) => RepMatches(x, n, s)
  }

  /** `s` splits into `n` consecutive pieces, each matched by `x`. */
  predicate RepMatches(x: Re, n: nat, s: string)
    decreases x, n + 1
  {
    if n == 0 then s == []
    else exists k :: 0 <= k <= |s| && Matches(x, s[..k]) && RepMatches(x, n - 1, s[k..])
  }

  /** `/r/.test(s)`: some substring of `s` matches `r`. */
  predicate Found(r: Re, s: string) {
    exists i, j :: 0 <= i <= j <= |s| && Matches(r, s[i..j])
  }

  /** The pattern that matches exactly the literal string `w`. */
  function Str(w: string): Re
    decreases |w|
  {
    if w == [] then Empty else Cat(Lit(w[0]), Str(w[1..]))
  }

  predicate AllInRange(s: string, lo: char, hi: char) {
    forall i :: 0 <= i < |s| ==> lo <= s[i] <= hi
  }

  /** Every string `r` matches has length `w`. */
  ghost predicate FixedWidth(r: Re, w: nat) {
    forall t :: Matches(r, t) ==> |t| == w
  }

  /** When the left part has a fixed width, a concatenation splits at that width. */
  lemma CatAtWidth(a: Re, b: Re, w: nat, s: string)
    requires FixedWidth(a, w)
    ensures Matches(Cat(a, b), s) <==> w <= |s| && Matches(a, s[..w]) && Matches(b, s[w..])
  {
    if Matches(Cat(a, b), s) {
      var k :| 0 <= k <= |s| && Matches(a, s[..k]) && Matches(b, s[k..]);
      assert |s[..k]| == w;
    }
  }

  lemma {:induction false} StrMatches(w: string, s: string)
    ensures Matches(Str(w), s) <==> s == w
    ensures FixedWidth(Str(w), |w|)
    decreases |w|
  {
    if w != [] {
      var rest := Str(w[1..]);
      forall t ensures Matches(rest, t) <==> t == w[1..] {
        StrMatches(w[1..], t);
      }
      assert FixedWidth(Lit(w[0]), 1);
      forall t ensures Matches(Str(w), t) <==> t == w {
        CatAtWidth(Lit(w[0]), rest, 1, t);
        if 1 <= |t| && t[..1] == [w[0]] && t[1..] == w[1..] {
          assert t == t[..1] + t[1..];
        }
      }
    }
  }

  /** `[lo-hi]{n}` matches exactly the strings of length `n` drawn from the range. */
  lemma {:induction false} RepRange(lo: char, hi: char, n: nat, s: string)
    ensures RepMatches(Range(lo, hi), n, s) <==> |s| == n && AllInRange(s, lo, hi)
    decreases n
  {
    var r := Range(lo, hi);
    if n > 0 {
      if RepMatches(r, n, s) {
        var k :| 0 <= k <= |s| && Matches(r, s[..k]) && RepMatches(r, n - 1, s[k..]);
        assert k == 1;
        RepRange(lo, hi, n - 1, s[1..]);
        forall i | 0 <= i < |s| ensures lo <= s[i] <= hi {
          if i > 0 { assert s[i] == s[1..][i - 1]; } else { assert s[..1][0] == s[0]; }
        }
      }
      if |s| == n && AllInRange(s, lo, hi) {
        RepRange(lo, hi, n - 1, s[1..]);
        assert AllInRange(s[1..], lo, hi) by {
          forall i | 0 <= i < |s[1..]| ensures lo <= s[1..][i] <= hi {
            assert s[1..][i] == s[i + 1];
          }
        }
        assert Matches(r, s[..1]);
      }
    }
  }

  lemma RepRangeMatches(lo: char, hi: char, n: nat, s: string)
    ensures Matches(Rep(Range(lo, hi), n), s) <==> |s| == n && AllInRange(s, lo, hi)
  {
    RepRange(lo, hi, n, s);
  }

  lemma RepRangeWidth(lo: char, hi: char, n: nat)
    ensures FixedWidth(Rep(Range(lo, hi), n), n)
  {
    forall t | Matches(Rep(Range(lo, hi), n), t) ensures |t| == n {
      RepRange(lo, hi, n, t);
    }
  }

  /** `/[lo-hi]/.test(s)` holds exactly when some character of `s` lies in the range. */
  lemma FoundRange(lo: char, hi: char, s: string)
    ensures Found(Range(lo, hi), s) <==> exists i :: 0 <= i < |s| && lo <= s[i] <= hi
  {
    if Found(Range(lo, hi), s) {
      var i, j :| 0 <= i <= j <= |s| && Matches(Range(lo, hi), s[i..j]);
      assert s[i..j][0] == s[i];
    }
    if exists i :: 0 <= i < |s| && lo <= s[i] <= hi {
      var i :| 0 <= i < |s| && lo <= s[i] <= hi;
      assert Matches(Range(lo, hi), s[i..i + 1]);
    }
  }
}
