/**
 * Python's `str(i)` for an int and `int(s)` for a str, restricted to ASCII:
 * `int` accepts surrounding whitespace, one optional sign and decimal digits
 * with single underscores between them (`int(' -1_000 ')` is -1000).
 * Both conversions are unbounded: the 4300-digit limit of later Pythons is
 * not modelled.
 */
module PyInt {
  import opened Wrappers

  predicate IsDigit(c: char) {
    '0' <= c <= '9'
  }

  function DigitChar(d: nat): (c: char)
    requires d < 10
    ensures IsDigit(c)
  {
    ('0' as int + d) as char
  }

  function DigitValue(c: char): (d: nat)
    requires IsDigit(c)
    ensures d < 10 && DigitChar(d) == c
  {
    c as int - '0' as int
  }

  predicate AllDigits(s: string) {
    forall k :: 0 <= k < |s| ==> IsDigit(s[k])
  }

  /** The decimal digits of `n`, most significant first, without leading zeros. */
  function DecimalDigits(n: nat): (s: string)
    ensures |s| >= 1 && AllDigits(s)
  {
    if n < 10 then [DigitChar(n)] else DecimalDigits(n / 10) + [DigitChar(n % 10)]
  }

  /** The number a digit string denotes. */
  function DigitsValue(s: string): nat
    requires AllDigits(s)
  {
    if |s| == 0 then 0 else 10 * DigitsValue(s[..|s| - 1]) + DigitValue(s[|s| - 1])
  }

  lemma {:induction false} DigitsValueOfDecimal(n: nat)
    ensures DigitsValue(DecimalDigits(n)) == n
  {
    if n >= 10 {
      var s := DecimalDigits(n);
      assert s[..|s| - 1] == DecimalDigits(n / 10);
      DigitsValueOfDecimal(n / 10);
    }
  }

  /** `str(i)`: the decimal rendering, with a leading '-' for negative numbers. */
  function IntToDecimal(i: int): string {
    if i < 0 then "-" + DecimalDigits(-i) else DecimalDigits(i)
  }

  /**
   * The ASCII characters `int(str)` strips around its literal: the C
   * whitespace ' ', '\t', '\n', '\v', '\f' and '\r'. The separators
   * 0x1c-0x1f, which `str.isspace()` accepts, are not among them.
   */
  predicate IsSpace(c: char) {
    c == ' ' || 0x09 <= c as int <= 0x0d
  }

  function StripLeft(s: string): (r: string)
    ensures |r| <= |s| && r == s[|s| - |r|..]
    ensures |r| > 0 ==> !IsSpace(r[0])
  {
    if |s| > 0 && IsSpace(s[0]) then StripLeft(s[1..]) else s
  }

  function StripRight(s: string): (r: string)
    ensures |r| <= |s| && r == s[..|r|]
    ensures |r| > 0 ==> !IsSpace(r[|r| - 1])
  {
    if |s| > 0 && IsSpace(s[|s| - 1]) then StripRight(s[..|s| - 1]) else s
  }

  /** The text without the leading and trailing whitespace `int(str)` skips. */
  function Strip(s: string): string {
    StripRight(StripLeft(s))
  }

  /** Digits with single underscores between them, as `int` accepts them. */
  predicate IsDigitGroups(s: string) {
    && |s| >= 1
    && IsDigit(s[0])
    && IsDigit(s[|s| - 1])
    && (forall k :: 0 <= k < |s| ==> IsDigit(s[k]) || s[k] == '_')
    && (forall k :: 0 <= k < |s| - 1 && s[k] == '_' ==> s[k + 1] != '_')
  }

  function RemoveUnderscores(s: string): (r: string)
    requires forall k :: 0 <= k < |s| ==> IsDigit(s[k]) || s[k] == '_'
    ensures AllDigits(r)
  {
    if |s| == 0 then ""
    else if s[0] == '_' then RemoveUnderscores(s[1..])
    else [s[0]] + RemoveUnderscores(s[1..])
  }

  lemma {:induction false} RemoveUnderscoresOfDigits(s: string)
    requires AllDigits(s)
    ensures RemoveUnderscores(s) == s
  {
    if |s| > 0 {
      RemoveUnderscoresOfDigits(s[1..]);
    }
  }

  /** An unsigned digit-group body, or `None`. */
  function ParseUnsigned(body: string): Option<nat> {
    if IsDigitGroups(body) then Some(DigitsValue(RemoveUnderscores(body))) else None
  }

  /** `int(s)` on a str: `Some(value)`, or `None` where Python raises ValueError. */
  function ParseInt(s: string): Option<int> {
    var t := Strip(s);
    if |t| > 0 && (t[0] == '-' || t[0] == '+') then
      match ParseUnsigned(t[1..])
      case None => None
      case Some(n) =>
        var v: int := if t[0] == '-' then 0 - (n as int) else n;
        Some(v)
    else
      match ParseUnsigned(t)
      case None => None
      case Some(n) =>
        Some(n)
  }

  lemma StripOfUnspaced(s: string)
    requires |s| > 0 && !IsSpace(s[0]) && !IsSpace(s[|s| - 1])
    ensures Strip(s) == s
  {
  }

  lemma ParseUnsignedOfDigits(n: nat)
    ensures ParseUnsigned(DecimalDigits(n)) == Some(n)
  {
    var digits := DecimalDigits(n);
    assert IsDigitGroups(digits);
    RemoveUnderscoresOfDigits(digits);
    DigitsValueOfDecimal(n);
  }

  lemma ParseIntOfDigits(n: nat)
    ensures ParseInt(DecimalDigits(n)) == Some(n)
  {
    var digits := DecimalDigits(n);
    assert IsDigit(digits[0]) && IsDigit(digits[|digits| - 1]);
    StripOfUnspaced(digits);
    ParseUnsignedOfDigits(n);
  }

  lemma ParseIntOfNegatedDigits(n: nat)
    ensures ParseInt("-" + DecimalDigits(n)) == Some(0 - n as int)
  {
    var digits := DecimalDigits(n);
    var s := "-" + digits;
    assert s[1..] == digits;
    assert s[|s| - 1] == digits[|digits| - 1] && IsDigit(s[|s| - 1]);
    StripOfUnspaced(s);
    ParseUnsignedOfDigits(n);
  }

  /** Parsing the decimal rendering of any int gives that int back. */
  lemma ParseIntOfDecimal(i: int)
    ensures ParseInt(IntToDecimal(i)) == Some(i)
  {
    var s := IntToDecimal(i);
    if i < 0 {
      var n: nat := -i;
      assert s == "-" + DecimalDigits(n);
      ParseIntOfNegatedDigits(n);
    } else {
      assert s == DecimalDigits(i);
      ParseIntOfDigits(i);
    }
  }

  /** The rendering is the shortest one: no leading zero, no '+', no space. */
  lemma DecimalIsCanonical(i: int)
    ensures var s := IntToDecimal(i);
      && |s| >= 1
      && (s[0] == '-' <==> i < 0)
      && (s[0] == '0' ==> s == "0")
      && forall k :: 0 <= k < |s| ==> IsDigit(s[k]) || (k == 0 && s[k] == '-')
  {
    var n: nat := if i < 0 then -i else i;
    LeadingDigit(n);
  }

  lemma {:induction false} LeadingDigit(n: nat)
    ensures DecimalDigits(n)[0] == '0' <==> n == 0
  {
    if n >= 10 {
      LeadingDigit(n / 10);
    }
  }

  /** The rejected input of the accessor's tests. */
  lemma ParseIntRejectsWord()
    ensures ParseInt("not_an_int") == None
  {
    NoDigitNoInt("not_an_int");
  }

  lemma NoDigitNoInt(s: string)
    requires forall k :: 0 <= k < |s| ==> !IsDigit(s[k])
    ensures ParseInt(s) == None
  {
  }

  /**
   * A text that starts with a character other than whitespace, a sign or
   * a digit is refused, whatever follows it.
   */
  lemma ForeignLeadNoInt(s: string)
    requires |s| > 0 && !IsSpace(s[0]) && !IsDigit(s[0]) && s[0] != '-' && s[0] != '+'
    ensures ParseInt(s) == None
  {
    StripOfUnspacedLeft(s);
  }

  lemma StripOfUnspacedLeft(s: string)
    requires |s| > 0 && !IsSpace(s[0])
    ensures |Strip(s)| > 0 && Strip(s)[0] == s[0]
  {
    assert StripLeft(s) == s;
    StripRightKeepsHead(s);
  }

  lemma {:induction false} StripRightKeepsHead(s: string)
    requires |s| > 0 && !IsSpace(s[0])
    ensures |StripRight(s)| > 0
  {
    if IsSpace(s[|s| - 1]) {
      StripRightKeepsHead(s[..|s| - 1]);
    }
  }

  /** A file separator (0x1c) before the digits is not skipped: `int('\x1c5')` fails. */
  lemma SeparatorNotStripped()
    ensures ParseInt([0x1c as char, '5']) == None
  {
    ForeignLeadNoInt([0x1c as char, '5']);
  }

  lemma {:induction false} StripLeftSpaces(pre: string, t: string)
    requires forall k :: 0 <= k < |pre| ==> IsSpace(pre[k])
    ensures StripLeft(pre + t) == StripLeft(t)
  {
    if |pre| == 0 {
      assert pre + t == t;
    } else {
      assert (pre + t)[0] == pre[0];
      assert (pre + t)[1..] == pre[1..] + t;
      StripLeftSpaces(pre[1..], t);
    }
  }

  lemma {:induction false} StripRightSpaces(t: string, post: string)
    requires forall k :: 0 <= k < |post| ==> IsSpace(post[k])
    ensures StripRight(t + post) == StripRight(t)
  {
    if |post| == 0 {
      assert t + post == t;
    } else {
      var u := t + post;
      assert u[|u| - 1] == post[|post| - 1];
      assert u[..|u| - 1] == t + post[..|post| - 1];
      StripRightSpaces(t, post[..|post| - 1]);
    }
  }

  /** `int` sees only the stripped text. */
  lemma ParseIntOfStripped(s: string, t: string)
    requires Strip(s) == Strip(t)
    ensures ParseInt(s) == ParseInt(t)
  {
  }

  /** C whitespace before and after a decimal literal is skipped. */
  lemma SpacedDigits(pre: string, n: nat, post: string)
    requires forall k :: 0 <= k < |pre| ==> IsSpace(pre[k])
    requires forall k :: 0 <= k < |post| ==> IsSpace(post[k])
    ensures ParseInt(pre + DecimalDigits(n) + post) == Some(n)
  {
    var d := DecimalDigits(n);
    var tail := d + post;
    assert IsDigit(d[0]) && IsDigit(d[|d| - 1]);
    assert pre + d + post == pre + tail;
    StripLeftSpaces(pre, tail);
    assert tail[0] == d[0];
    assert StripLeft(tail) == tail;
    StripRightSpaces(d, post);
    StripOfUnspaced(d);
    assert Strip(pre + tail) == Strip(d);
    ParseIntOfStripped(pre + tail, d);
    ParseIntOfDigits(n);
  }

  /** `int(' \t5\n')` is 5. */
  lemma WhitespaceStripped()
    ensures ParseInt(" \t5\n") == Some(5)
  {
    assert DecimalDigits(5) == "5";
    assert " \t" + "5" + "\n" == " \t5\n";
    SpacedDigits(" \t", 5, "\n");
  }
}
