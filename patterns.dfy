/**
 * The regular expressions of the registration page and the profile API,
 * written as `Regex.Re` values exactly as they appear in the code, with the
 * sets of strings they accept worked out.
 */
module Patterns {
  import opened Text
  import opened Regex

  /** `\d` and `[0-9]` (no `u` flag): ASCII digits. */
  const Digit: Re := Range('0', '9')

  /** `/^(?:\d{10}|\d{13}|\d{17})$/` from `validateNID`. */
  const NidPattern: Re := Alt(Alt(Rep(Digit, 10), Rep(Digit, 13)), Rep(Digit, 17))

  /** `/^(?:\+88|01[3-9])[0-9]{8}$/`, the phone check of the registration
      page and of the profile update handler. */
  const PhonePattern: Re := Cat(PhoneHead, Rep(Digit, 8))

  /** `(?:\+88|01[3-9])`, the head of the phone regex. */
  const PhoneHead: Re := Alt(Str("+88"), Cat(Str("01"), Range('3', '9')))

  /** The `pattern="(\+88)?01[3-9]\d{8}"` attribute on the contact inputs, which
      the browser applies as `^(?:...)$` before the submit handler runs. */
  const HtmlPhonePattern: Re := Cat(Alt(Str("+88"), Empty), MobileRe)

  /** `01[3-9]\d{8}` and its part after "01". */
  const MobileRe: Re := Cat(Str("01"), OperatorRest)
  const OperatorRest: Re := Cat(Range('3', '9'), Rep(Digit, 8))

  const UpperCase: Re := Range('A', 'Z')
  const LowerCase: Re := Range('a', 'z')

  /** A local mobile number: "01", an operator digit 3-9, then 8 digits. */
  predicate IsLocalMobile(s: string) {
    |s| == 11 && s[0] == '0' && s[1] == '1' && '3' <= s[2] <= '9' && AllDigits(s[3..])
  }

  /** "+88" followed by exactly 8 digits (11 characters in all). */
  predicate IsPlus88Short(s: string) {
    |s| == 11 && s[..3] == "+88" && AllDigits(s[3..])
  }

  /** `\d{n}` matches exactly the strings of `n` digits. */
  lemma DigitRun(n: nat, s: string)
    ensures Matches(Rep(Digit, n), s) <==> |s| == n && AllDigits(s)
  {
    RepRangeMatches('0', '9', n, s);
    assert AllInRange(s, '0', '9') <==> AllDigits(s);
  }

  /** The NID pattern accepts exactly the all-digit strings of length 10, 13 or 17. */
  lemma NidPatternAccepts(s: string)
    ensures Matches(NidPattern, s) <==> (|s| == 10 || |s| == 13 || |s| == 17) && AllDigits(s)
  {
    DigitRun(10, s);
    DigitRun(13, s);
    DigitRun(17, s);
  }

  /** `01[3-9]` matches the three characters "0", "1", then an operator digit. */
  lemma OperatorPrefix(p: string)
    ensures Matches(Cat(Str("01"), Range('3', '9')), p) <==>
      |p| == 3 && p[0] == '0' && p[1] == '1' && '3' <= p[2] <= '9'
  {
    StrMatches("01", "");
    CatAtWidth(Str("01"), Range('3', '9'), 2, p);
    if 2 <= |p| {
      StrMatches("01", p[..2]);
      if p[..2] == "01" { assert p[0] == '0' && p[1] == '1'; }
      if |p| == 3 && p[0] == '0' && p[1] == '1' { assert p[..2] == "01"; }
    }
  }

  /** `(?:\+88|01[3-9])`: both alternatives are three characters long. */
  lemma PhonePrefix(p: string)
    ensures Matches(PhoneHead, p) <==>
      p == "+88" || (|p| == 3 && p[0] == '0' && p[1] == '1' && '3' <= p[2] <= '9')
  {
    StrMatches("+88", p);
    OperatorPrefix(p);
  }

  lemma PhoneHeadWidth()
    ensures FixedWidth(PhoneHead, 3)
  {
    forall t | Matches(PhoneHead, t) ensures |t| == 3 {
      PhonePrefix(t);
    }
  }

  /** The phone regex as written: "+88" then 8 digits, or "01", a digit 3-9,
      then 8 digits. Both alternatives are 11 characters long. */
  lemma PhonePatternAccepts(s: string)
    ensures Matches(PhonePattern, s) <==> IsPlus88Short(s) || IsLocalMobile(s)
  {
    PhoneHeadWidth();
    CatAtWidth(PhoneHead, Rep(Digit, 8), 3, s);
    if 3 <= |s| {
      PhonePrefix(s[..3]);
      DigitRun(8, s[3..]);
      if s[..3] == "+88" { assert IsPlus88Short(s) <==> |s| == 11 && AllDigits(s[3..]); }
    }
  }

  lemma PhoneLength(s: string)
    requires Matches(PhonePattern, s)
    ensures |s| == 11
  {
    PhonePatternAccepts(s);
  }

  /** `[3-9]\d{8}`: an operator digit then eight digits. */
  lemma OperatorRestMatches(t: string)
    ensures Matches(OperatorRest, t) <==> |t| == 9 && '3' <= t[0] <= '9' && AllDigits(t[1..])
  {
    CatAtWidth(Range('3', '9'), Rep(Digit, 8), 1, t);
    if 1 <= |t| {
      DigitRun(8, t[1..]);
      assert t[..1] == [t[0]];
    }
  }

  /** `01[3-9]\d{8}`: a local mobile number. */
  lemma LocalMobileTail(t: string)
    ensures Matches(MobileRe, t) <==> IsLocalMobile(t)
  {
    StrMatches("01", "");
    CatAtWidth(Str("01"), OperatorRest, 2, t);
    if 2 <= |t| {
      StrMatches("01", t[..2]);
      OperatorRestMatches(t[2..]);
      if 3 <= |t| {
        assert t[2..][1..] == t[3..];
      }
      if t[..2] == "01" { assert t[0] == '0' && t[1] == '1'; }
      if t[0] == '0' && t[1] == '1' { assert t[..2] == "01"; }
    }
  }

  /** `(\+88)?` followed by the rest: the rest matches either the whole
      string or what follows a leading "+88". */
  lemma HtmlPhoneSplit(s: string)
    ensures Matches(HtmlPhonePattern, s) <==>
      Matches(MobileRe, s) || (3 <= |s| && s[..3] == "+88" && Matches(MobileRe, s[3..]))
  {
    var tail := MobileRe;
    var head := Alt(Str("+88"), Empty);
    if Matches(Cat(head, tail), s) {
      var k :| 0 <= k <= |s| && Matches(head, s[..k]) && Matches(tail, s[k..]);
      StrMatches("+88", s[..k]);
      if k == 0 { assert s[k..] == s; }
    }
    if Matches(tail, s) {
      assert s[..0] == [] && s[0..] == s;
      assert Matches(head, s[..0]);
    }
    if 3 <= |s| && s[..3] == "+88" && Matches(tail, s[3..]) {
      StrMatches("+88", s[..3]);
    }
  }

  /** The HTML pattern accepts a local mobile number, optionally preceded by "+88". */
  lemma HtmlPhonePatternAccepts(s: string)
    ensures Matches(HtmlPhonePattern, s) <==>
      IsLocalMobile(s) || (|s| == 14 && s[..3] == "+88" && IsLocalMobile(s[3..]))
  {
    HtmlPhoneSplit(s);
    LocalMobileTail(s);
    if 3 <= |s| {
      LocalMobileTail(s[3..]);
    }
  }

  /** A contact that passes both the browser's pattern and the submit handler's
      regex is exactly a local mobile number: each check rejects the other's
      "+88" form. */
  lemma BothPhoneChecks(s: string)
    ensures Matches(PhonePattern, s) && Matches(HtmlPhonePattern, s) <==> IsLocalMobile(s)
  {
    PhonePatternAccepts(s);
    HtmlPhonePatternAccepts(s);
  }

  /** The local example quoted in the registration error message passes. */
  lemma LocalExampleAccepted()
    ensures Matches(PhonePattern, "01712345678")
  {
    PhonePatternAccepts("01712345678");
  }

  /** The international example quoted in the registration error message is
      rejected by the regex it describes (it is 14 characters long), while the
      HTML pattern accepts it. */
  lemma InternationalExampleRejected()
    ensures !Matches(PhonePattern, "+8801712345678")
  {
    PhonePatternAccepts("+8801712345678");
  }

  lemma InternationalExampleFitsHtml()
    ensures Matches(HtmlPhonePattern, "+8801712345678")
  {
    var s := "+8801712345678";
    var t := "01712345678";
    assert s[..3] == "+88" && s[3..] == t;
    assert IsLocalMobile(t) by {
      assert t[3..] == "12345678";
    }
    HtmlPhonePatternAccepts(s);
  }

  /** Conversely, "+88" followed by eight digits passes the regex but not the
      HTML pattern. */
  lemma ShortInternationalAccepted()
    ensures Matches(PhonePattern, "+8812345678") && !Matches(HtmlPhonePattern, "+8812345678")
  {
    var s := "+8812345678";
    assert s[..3] == "+88";
    PhonePatternAccepts(s);
    HtmlPhonePatternAccepts(s);
  }
}
