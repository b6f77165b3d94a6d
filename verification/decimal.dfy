/** Base-10 integers as the call-log loader reads them (Python's `int()` applied to
    a stripped field) and as the CSV writer renders them (`str()` of an int). */
module Decimal {
  import opened Wrappers
  import opened Text

  predicate IsDigit(c: char) {
    '0' <= c <= '9'
  }

  predicate AllDigits(s: string) {
    forall k :: 0 <= k < |s| ==> IsDigit(s[k])
  }

  /** The value of a run of ASCII digits, most significant first. */
  function DigitsValue(s: string): nat
    requires AllDigits(s)
  {
    if |s| == 0 then 0
    else 10 * DigitsValue(s[..|s| - 1]) + (s[|s| - 1] as int - '0' as int)
  }

  /** The base-10 literals `int()` accepts once the field is stripped: an optional
      sign followed by at least one ASCII digit. Leading zeros are allowed. */
  predicate IsIntLiteral(s: string) {
    if |s| > 0 && (s[0] == '+' || s[0] == '-') then |s| > 1 && AllDigits(s[1..])
    else |s| > 0 && AllDigits(s)
  }

  /** `int(s)`: `None` stands for the `ValueError` the loader catches. A string
      that parses is non-empty and holds no whitespace, so stripping it again
      changes nothing. */
  function ParseInt(s: string): (r: Option<int>)
    ensures r.Some? <==> IsIntLiteral(s)
    ensures r.Some? ==> |s| > 0 && forall k :: 0 <= k < |s| ==> !IsSpace(s[k])
  {
    if |s| > 1 && s[0] == '-' && AllDigits(s[1..]) then Some(-(DigitsValue(s[1..]) as int))
    else if |s| > 1 && s[0] == '+' && AllDigits(s[1..]) then Some(DigitsValue(s[1..]))
    else if |s| > 0 && AllDigits(s) then Some(DigitsValue(s))
    else None
  }

  function DigitChar(d: nat): (c: char)
    requires d < 10
    ensures IsDigit(c)
  {
    ('0' as int + d) as char
  }

  /** The digits of a natural number without leading zeros; reading them back
      gives the number. */
  function ShowNat(n: nat): (s: string)
    ensures |s| > 0 && AllDigits(s) && DigitsValue(s) == n
    ensures |s| > 1 ==> s[0] != '0'
    ensures s[0] == '0' <==> n == 0
  {
    if n < 10 then [DigitChar(n)]
    else
      var prefix := ShowNat(n / 10);
      var s := prefix + [DigitChar(n % 10)];
      assert s[..|s| - 1] == prefix;
      s
  }

  /** The literals `str()` writes for an int: an optional minus sign, then digits
      without a leading zero. There is no plus sign, and zero is `0`, never `-0`. */
  predicate IsCanonical(s: string) {
    if |s| > 0 && s[0] == '-' then |s| > 1 && AllDigits(s[1..]) && s[1] != '0'
    else |s| > 0 && AllDigits(s) && (|s| > 1 ==> s[0] != '0')
  }

  /** `s` is the text `str()` writes for `n`: canonical, and reading back as `n`. */
  predicate Renders(s: string, n: int) {
    IsCanonical(s) && ParseInt(s) == Some(n)
  }

  /** `str(n)` for an int: a minus sign for negatives, then the digits. The
      rendering is canonical, and parsing it gives `n` back. */
  function Show(n: int): (s: string)
    ensures ParseInt(s) == Some(n)
    ensures IsCanonical(s)
    ensures Trim(s) == s
  {
    var s := if n < 0 then "-" + ShowNat(-n) else ShowNat(n);
    assert n < 0 ==> s[1..] == ShowNat(-n);
    TrimNoSpace(s);
    s
  }

  /** A leading zero does not change the digits' value. */
  lemma {:induction false} DigitsLeadingZero(d: string)
    requires AllDigits(d)
    ensures AllDigits("0" + d) && DigitsValue("0" + d) == DigitsValue(d)
  {
    if |d| > 0 {
      var z := "0" + d;
      assert z[..|z| - 1] == "0" + d[..|d| - 1];
      DigitsLeadingZero(d[..|d| - 1]);
    }
  }

  /** `int()` ignores leading zeros: `0` followed by digits reads as the digits. */
  lemma LeadingZero(d: string)
    requires |d| > 0 && AllDigits(d)
    ensures ParseInt("0" + d) == ParseInt(d)
  {
    DigitsLeadingZero(d);
  }

  /** A plus sign before digits reads as the digits. */
  lemma PlusSign(d: string)
    requires |d| > 0 && AllDigits(d)
    ensures ParseInt("+" + d) == ParseInt(d)
  {
  }

  /** A minus sign before digits negates their value. */
  lemma MinusSign(d: string)
    requires |d| > 0 && AllDigits(d)
    ensures ParseInt(d).Some? && ParseInt("-" + d) == Some(-ParseInt(d).value)
  {
  }

  /** Digits without a leading zero are the rendering of their value. */
  lemma {:induction false} DigitsAreShowNat(d: string)
    requires |d| > 0 && AllDigits(d) && (|d| > 1 ==> d[0] != '0')
    ensures d == ShowNat(DigitsValue(d))
  {
    var c := d[|d| - 1] as int - '0' as int;
    if |d| == 1 {
      assert DigitsValue(d) == c;
    } else {
      var init := d[..|d| - 1];
      DigitsAreShowNat(init);
      var v := DigitsValue(init);
      assert ShowNat(v)[0] == init[0] == d[0] != '0';
      assert DigitsValue(d) == 10 * v + c && v >= 1;
      assert (10 * v + c) / 10 == v && (10 * v + c) % 10 == c;
      assert d == init + [d[|d| - 1]];
    }
  }

  /** `str()` is the inverse of `int()` on canonical literals: a string is the
      rendering of `n` exactly when it is canonical and reads back as `n`. */
  lemma CanonicalIsShow(s: string, n: int)
    ensures s == Show(n) <==> Renders(s, n)
  {
    if Renders(s, n) {
      if s[0] == '-' {
        var d := s[1..];
        DigitsAreShowNat(d);
        assert s == "-" + d;
      } else {
        DigitsAreShowNat(s);
      }
    }
  }
}
