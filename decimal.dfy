/** How JavaScript template literals render an integer (`${n}`): base ten, a leading `-` for
    negative values, no leading zeros. Reading it back is the partner that shows the rendering
    loses nothing. */
module Decimal {
  import opened Wrappers

  predicate IsDigit(c: char) { '0' <= c <= '9' }

  predicate AllDigits(s: string) { forall k :: 0 <= k < |s| ==> IsDigit(s[k]) }

  function DigitChar(d: nat): (c: char)
    requires d < 10
    ensures IsDigit(c) && c as int - '0' as int == d
  {
    ('0' as int + d) as char
  }

  /** The decimal digits of `n`, most significant first, with no leading zero. */
  function NatToString(n: nat): (s: string)
    ensures |s| >= 1 && AllDigits(s)
    ensures s[0] == '0' ==> n == 0 && s == "0"
  {
    if n < 10 then [DigitChar(n)]
    else
      var s := NatToString(n / 10) + [DigitChar(n % 10)];
      assert s[0] == NatToString(n / 10)[0];
      s
  }

  /** The number a string of decimal digits denotes. */
  function DigitsValue(s: string): nat
    requires AllDigits(s)
  {
    if s == [] then 0
    else DigitsValue(s[..|s| - 1]) * 10 + (s[|s| - 1] as int - '0' as int)
  }

  /** Reading back the digits of `n` gives `n`. */
  lemma {:induction false} NatToStringValue(n: nat)
    ensures DigitsValue(NatToString(n)) == n
  {
    var s := NatToString(n);
    if n >= 10 {
      NatToStringValue(n / 10);
      assert s[..|s| - 1] == NatToString(n / 10);
    } else {
      assert s[..0] == [];
    }
  }

  /** `${i}` for an integer `i`. */
  function IntToString(i: int): (s: string)
    ensures |s| >= 1
    ensures i < 0 <==> s[0] == '-'
  {
    if i < 0 then "-" + NatToString(-i) else NatToString(i)
  }

  /** Digits as `${n}` writes them: at least one, and no leading zero unless the number is zero. */
  predicate Canonical(s: string) {
    |s| >= 1 && AllDigits(s) && (s[0] == '0' ==> |s| == 1)
  }

  /** Reads the text `${i}` renders: `0`, or an optional minus sign and digits without a leading
      zero. Anything else (`05`, `-0`, `+5`, the empty text) is not a rendered integer. */
  function ParseInt(s: string): Option<int> {
    if |s| >= 2 && s[0] == '-' && Canonical(s[1..]) && s[1] != '0' then Some(0 - DigitsValue(s[1..]) as int)
    else if Canonical(s) then Some(DigitsValue(s))
    else None
  }

  /** Rendering an integer and reading it back gives the integer, so distinct integers render differently. */
  lemma IntToStringRoundTrip(i: int)
    ensures ParseInt(IntToString(i)) == Some(i)
  {
    var s := IntToString(i);
    if i < 0 {
      var t := NatToString(-i);
      NatToStringValue(-i);
      assert Canonical(t) && t[0] != '0';
      assert s == "-" + t;
      assert s[1..] == t && s[1] == t[0];
      assert ParseInt(s) == Some(0 - DigitsValue(t) as int);
    } else {
      NatToStringValue(i);
      assert s == NatToString(i);
      assert Canonical(s);
      assert ParseInt(s) == Some(DigitsValue(s));
    }
  }

  /** Digits that do not start with a zero denote a positive number. */
  lemma {:induction false} LeadingDigitPositive(s: string)
    requires |s| >= 1 && AllDigits(s) && s[0] != '0'
    ensures DigitsValue(s) >= 1
  {
    if |s| > 1 {
      var t := s[..|s| - 1];
      assert t[0] == s[0];
      LeadingDigitPositive(t);
    }
  }

  /** Canonical digits are the rendering of the number they denote. */
  lemma {:induction false} CanonicalDigits(s: string)
    requires Canonical(s)
    ensures NatToString(DigitsValue(s)) == s
  {
    if |s| > 1 {
      var t := s[..|s| - 1];
      var d := s[|s| - 1] as int - '0' as int;
      assert t[0] == s[0];
      LeadingDigitPositive(t);
      CanonicalDigits(t);
      var n := DigitsValue(s);
      assert n == DigitsValue(t) * 10 + d;
      assert n / 10 == DigitsValue(t) && n % 10 == d;
      assert s == t + [s[|s| - 1]];
    }
  }

  /** Only the rendering of an integer reads back as that integer: the parser accepts exactly the
      texts `${i}` produces. */
  lemma ParseIntCanonical(s: string, i: int)
    requires ParseInt(s) == Some(i)
    ensures s == IntToString(i)
  {
    if |s| >= 2 && s[0] == '-' && Canonical(s[1..]) && s[1] != '0' {
      LeadingDigitPositive(s[1..]);
      CanonicalDigits(s[1..]);
      assert s == "-" + s[1..];
    } else {
      CanonicalDigits(s);
    }
  }

  /** Rendering is injective. */
  lemma IntToStringInjective(a: int, b: int)
    ensures IntToString(a) == IntToString(b) ==> a == b
  {
    IntToStringRoundTrip(a);
    IntToStringRoundTrip(b);
  }
}
