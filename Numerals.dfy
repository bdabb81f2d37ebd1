/**
 * Decimal numerals: how an integer is printed (Python's `str(int)` and the
 * `{i + 1}` of an f-string) and how Python's `int(text)` reads one back.
 */
module Numerals {
  import opened Wrappers

  predicate IsDigit(c: char) { '0' <= c <= '9' }

  predicate AllDigits(s: string) { forall k :: 0 <= k < |s| ==> IsDigit(s[k]) }

  function DigitValue(c: char): nat
    requires IsDigit(c)
  {
    c as int - '0' as int
  }

  function DigitChar(d: nat): (c: char)
    requires d < 10
    ensures IsDigit(c) && DigitValue(c) == d
  {
    ('0' as int + d) as char
  }

  /** The numeral of `n`, most significant digit first, with no leading zero. */
  function NatToDecimal(n: nat): (s: string)
    ensures 0 < |s| && AllDigits(s)
    ensures n > 0 ==> s[0] != '0'
    decreases n
  {
    if n < 10 then [DigitChar(n)] else NatToDecimal(n / 10) + [DigitChar(n % 10)]
  }

  /** Python's `str(i)` for an integer: a minus sign, then the numeral of `|i|`. */
  function IntToDecimal(i: int): string
  {
    if i < 0 then "-" + NatToDecimal(-i) else NatToDecimal(i)
  }

  /** The value of a string of digits, read most significant digit first. */
  function DigitsValue(s: string): nat
    requires AllDigits(s)
    decreases |s|
  {
    if s == [] then 0 else DigitsValue(s[..|s| - 1]) * 10 + DigitValue(s[|s| - 1])
  }

  /** Reading the printed numeral of `n` gives `n` back. */
  lemma {:induction false} DecimalValue(n: nat)
    ensures DigitsValue(NatToDecimal(n)) == n
  {
    if n >= 10 {
      var s := NatToDecimal(n);
      assert s[..|s| - 1] == NatToDecimal(n / 10);
      DecimalValue(n / 10);
    }
  }

  /** Distinct natural numbers print as distinct numerals. */
  lemma DecimalInjective(m: nat, n: nat)
    requires NatToDecimal(m) == NatToDecimal(n)
    ensures m == n
  {
    DecimalValue(m);
    DecimalValue(n);
  }

  /** The length of the longest prefix of `s` made of digits. */
  function DigitRun(s: string): (k: nat)
    ensures k <= |s| && AllDigits(s[..k])
    ensures k < |s| ==> !IsDigit(s[k])
    decreases |s|
  {
    if s == [] || !IsDigit(s[0]) then 0 else 1 + DigitRun(s[1..])
  }

  /** Different digit strings followed by the same non-digit text stay different. */
  lemma SeparatedDigitsDiffer(a: string, b: string, t: string)
    requires AllDigits(a) && AllDigits(b) && a != b
    requires t != [] && !IsDigit(t[0])
    ensures a + t != b + t
  {
    if |a| < |b| {
      assert (a + t)[|a|] == t[0] && (b + t)[|a|] == b[|a|];
    } else if |b| < |a| {
      assert (b + t)[|b|] == t[0] && (a + t)[|b|] == a[|b|];
    } else {
      assert (a + t)[..|a|] == a && (b + t)[..|b|] == b;
    }
  }

  /** A digit string followed by a non-digit (or nothing) is read up to its end. */
  lemma {:induction false} DigitRunStops(ds: string, rest: string)
    requires AllDigits(ds)
    requires rest == [] || !IsDigit(rest[0])
    ensures DigitRun(ds + rest) == |ds|
    decreases |ds|
  {
    if ds != [] {
      assert (ds + rest)[1..] == ds[1..] + rest;
      DigitRunStops(ds[1..], rest);
    } else {
      assert ds + rest == rest;
    }
  }

  /** The ASCII whitespace `int()` strips from around a numeral. */
  predicate IsSpace(c: char)
  {
    c == ' ' || c == '\t' || c == '\n' || c == '\r' || c as int == 0x0B || c as int == 0x0C
  }

  function StripLeft(s: string): (t: string)
    ensures |t| <= |s| && (t == [] || !IsSpace(t[0]))
    decreases |s|
  {
    if s != [] && IsSpace(s[0]) then StripLeft(s[1..]) else s
  }

  function StripRight(s: string): (t: string)
    ensures |t| <= |s| && (t == [] || !IsSpace(t[|t| - 1]))
    decreases |s|
  {
    if s != [] && IsSpace(s[|s| - 1]) then StripRight(s[..|s| - 1]) else s
  }

  /**
   * Python's `int(text)` on a string: surrounding whitespace is ignored, an
   * optional `+` or `-` sign comes first, and the rest must be one or more
   * digits. Anything else is a ValueError, here `None`.
   */
  function ParseInt(text: string): Option<int>
  {
    ParseTrimmed(StripRight(StripLeft(text)))
  }

  /** `int(text)` once the surrounding whitespace is gone. */
  function ParseTrimmed(t: string): Option<int>
  {
    var negative := t != [] && t[0] == '-';
    var body := if t != [] && (t[0] == '-' || t[0] == '+') then t[1..] else t;
    if body != [] && AllDigits(body) then
      var v: int := DigitsValue(body);
      Some(if negative then -v else v)
    else
      None
  }

  /** Letters are not a numeral: `int("abc")` raises ValueError. */
  lemma LettersDoNotParse()
    ensures ParseInt("abc") == None
  {
    assert StripLeft("abc") == "abc";
    assert StripRight("abc") == "abc";
    assert !IsDigit("abc"[0]);
  }

  /** Python's `int(str(i)) == i`. */
  lemma IntToDecimalParses(i: int)
    ensures ParseInt(IntToDecimal(i)) == Some(i)
  {
    var s := IntToDecimal(i);
    var digits := if i < 0 then NatToDecimal(-i) else NatToDecimal(i);
    assert StripLeft(s) == s;
    assert StripRight(s) == s by {
      assert s[|s| - 1] == digits[|digits| - 1];
    }
    DecimalValue(if i < 0 then -i else i);
    if i < 0 {
      assert s[1..] == digits;
    } else {
      assert s[0] != '-' && s[0] != '+';
    }
  }

  /** Whitespace around a numeral is ignored. */
  lemma {:induction false} ParseIntIgnoresSpaces(pre: string, i: int, post: string)
    requires forall k :: 0 <= k < |pre| ==> IsSpace(pre[k])
    requires forall k :: 0 <= k < |post| ==> IsSpace(post[k])
    ensures ParseInt(pre + IntToDecimal(i) + post) == Some(i)
  {
    var s := IntToDecimal(i);
    IntToDecimalParses(i);
    assert pre + s + post == pre + (s + post);
    StripLeftSpaces(pre, s + post);
    StripRightSpaces(s, post);
    assert StripRight(StripLeft(s)) == s;
  }

  lemma {:induction false} StripLeftSpaces(pre: string, s: string)
    requires forall k :: 0 <= k < |pre| ==> IsSpace(pre[k])
    requires s != [] && !IsSpace(s[0])
    ensures StripLeft(pre + s) == s
    decreases |pre|
  {
    if pre == [] {
      assert pre + s == s;
    } else {
      assert (pre + s)[1..] == pre[1..] + s;
      StripLeftSpaces(pre[1..], s);
    }
  }

  lemma {:induction false} StripRightSpaces(s: string, post: string)
    requires forall k :: 0 <= k < |post| ==> IsSpace(post[k])
    requires s != [] && !IsSpace(s[|s| - 1])
    ensures StripRight(s + post) == s
    decreases |post|
  {
    if post == [] {
      assert s + post == s;
    } else {
      var p := post[..|post| - 1];
      assert (s + post)[..|s + post| - 1] == s + p;
      StripRightSpaces(s, p);
    }
  }
}
