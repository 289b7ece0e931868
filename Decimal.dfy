/** Decimal text: the `'%s' % n` rendering of integers and Python's
    `int(s)` on a string of ASCII digits, as the URL builder, the URL
    parser and the similar-term parser use them. */
module Decimal {

  /** The ASCII digits, which is what `\d` matches in a pattern compiled
      without `re.UNICODE`. */
  predicate IsDigit(c: char)
  {
    '0' <= c <= '9'
  }

  predicate AllDigits(s: string)
  {
    forall i :: 0 <= i < |s| ==> IsDigit(s[i])
  }

  /** A string of digits, possibly empty. */
  type Digits = s: string | AllDigits(s)

  function DigitValue(c: char): (d: nat)
    requires IsDigit(c)
    ensures d < 10
  {
    c as int - '0' as int
  }

  function DigitChar(d: nat): (c: char)
    requires d < 10
    ensures IsDigit(c) && DigitValue(c) == d
  {
    ('0' as int + d) as char
  }

  /** `int(s)` for a string of digits; leading zeros are allowed. */
  function Value(s: string): nat
    requires AllDigits(s)
  {
    if s == [] then 0 else Value(s[..|s| - 1]) * 10 + DigitValue(s[|s| - 1])
  }

  /** `'%s' % n` for `n >= 0`: at least one digit, and no leading zero
      except in `"0"` itself. */
  function ShowNat(n: nat): (s: string)
    ensures |s| >= 1 && AllDigits(s)
    ensures s[0] == '0' ==> s == "0"
  {
    if n < 10 then [DigitChar(n)] else ShowNat(n / 10) + [DigitChar(n % 10)]
  }

  /** `'%s' % i` for any integer. */
  function Show(i: int): (s: string)
    ensures i >= 0 ==> s == ShowNat(i)
    ensures i < 0 ==> s == "-" + ShowNat(-i)
  {
    if i < 0 then "-" + ShowNat(-i) else ShowNat(i)
  }

  /** The longest prefix of `s` made of digits. */
  function DigitRun(s: string): (r: string)
    ensures |r| <= |s| && r == s[..|r|] && AllDigits(r)
    ensures |r| < |s| ==> !IsDigit(s[|r|])
  {
    if s != [] && IsDigit(s[0]) then [s[0]] + DigitRun(s[1..]) else []
  }

  /** The digit run of `d + rest` is `d` when `rest` does not go on with a
      digit. */
  lemma {:induction false} DigitRunOf(d: string, rest: string)
    requires AllDigits(d)
    requires rest == [] || !IsDigit(rest[0])
    ensures DigitRun(d + rest) == d
  {
    if d == [] {
      assert d + rest == rest;
    } else {
      DigitRunOf(d[1..], rest);
      assert (d + rest)[1..] == d[1..] + rest;
      assert [d[0]] + d[1..] == d;
    }
  }

  /** Reading back a rendered number gives the number. */
  lemma {:induction false} ValueOfShowNat(n: nat)
    ensures Value(ShowNat(n)) == n
  {
    if n >= 10 {
      ValueOfShowNat(n / 10);
      var s := ShowNat(n);
      assert s[..|s| - 1] == ShowNat(n / 10);
    }
  }

  /** A digit string that does not start with a redundant zero is its own
      rendering. */
  lemma {:induction false} ShowNatOfValue(s: string)
    requires AllDigits(s) && s != []
    requires s[0] == '0' ==> s == "0"
    ensures ShowNat(Value(s)) == s
  {
    if |s| > 1 {
      var init := s[..|s| - 1];
      assert init[0] == s[0];
      ValuePositive(init);
      ShowNatOfValue(init);
      assert Value(s) / 10 == Value(init);
      assert Value(s) % 10 == DigitValue(s[|s| - 1]);
      assert [DigitChar(DigitValue(s[|s| - 1]))] == [s[|s| - 1]];
      assert init + [s[|s| - 1]] == s;
    } else {
      assert s == [s[0]];
    }
  }

  lemma {:induction false} ValuePositive(s: string)
    requires AllDigits(s) && s != [] && s[0] != '0'
    ensures Value(s) >= 1
  {
    if |s| > 1 {
      var init := s[..|s| - 1];
      assert init[0] == s[0];
      ValuePositive(init);
    }
  }

  /** Leading zeros do not change the value: `int('007') == 7`. */
  lemma {:induction false} LeadingZero(s: string)
    requires AllDigits(s)
    ensures Value("0" + s) == Value(s)
  {
    if s != [] {
      LeadingZero(s[..|s| - 1]);
      assert ("0" + s)[..|"0" + s| - 1] == "0" + s[..|s| - 1];
    } else {
      assert "0" + s == "0";
      assert "0"[..0] == [];
    }
  }
}
