/** `int_to_str` (main.c:64-75): decimal rendering of an unsigned int into a
    NUL-terminated character buffer, and reading such a buffer back the way
    `uart_puts` does, up to the first NUL. */
module Decimal {
  import opened Uint16

  const NUL: char := '\0'
  /** Length of the scratch array `temp` in `int_to_str`. */
  const TEMP_SIZE: nat := 10
  /** The most digits an unsigned int can have (65535). */
  const MAX_DIGITS: nat := 5

  predicate IsDigit(c: char)
  {
    '0' <= c <= '9'
  }

  predicate AllDigits(s: string)
  {
    forall i :: 0 <= i < |s| ==> IsDigit(s[i])
  }

  /** `(d % 10) + '0'` */
  function DigitChar(d: nat): (c: char)
    requires d < 10
    ensures IsDigit(c)
  {
    ('0' as int + d) as char
  }

  function DigitValue(c: char): (d: nat)
    requires IsDigit(c)
    ensures d < 10 && DigitChar(d) == c
  {
    c as int - '0' as int
  }

  function Pow10(k: nat): (p: nat)
    ensures p >= 1
  {
    if k == 0 then 1 else 10 * Pow10(k - 1)
  }

  /** The digits the `while (num > 0)` loop produces, most significant first; none for 0. */
  function Digits(n: nat): (s: string)
    ensures AllDigits(s)
    ensures n == 0 <==> s == []
    ensures n > 0 ==> s[0] != '0'
    decreases n
  {
    if n == 0 then [] else Digits(n / 10) + [DigitChar(n % 10)]
  }

  /** The text `int_to_str` writes before the NUL: "0" for zero, otherwise the digits. */
  function DecimalString(n: nat): (s: string)
    ensures |s| >= 1 && AllDigits(s)
    ensures s[0] == '0' ==> s == "0"
  {
    if n == 0 then "0" else Digits(n)
  }

  /** Reads a string of decimal digits as a number, most significant digit first. */
  function ParseDecimal(s: string): (n: nat)
    requires AllDigits(s)
    ensures n < Pow10(|s|)
  {
    if s == [] then 0
    else ParseDecimal(s[..|s| - 1]) * 10 + DigitValue(s[|s| - 1])
  }

  /** The characters `uart_puts` sends from a buffer: those before the first NUL. */
  function UntilNul(s: string): (r: string)
    ensures NUL !in r
    ensures r <= s
    ensures |r| < |s| ==> s[|r|] == NUL
  {
    if s == [] || s[0] == NUL then [] else [s[0]] + UntilNul(s[1..])
  }

  /** Reading the digits back gives the number that was rendered. */
  lemma {:induction false} ParseDigits(n: nat)
    ensures ParseDecimal(Digits(n)) == n
    decreases n
  {
    if n > 0 {
      ParseDigits(n / 10);
      var s := Digits(n);
      assert s[..|s| - 1] == Digits(n / 10);
    }
  }

  /** `int_to_str` round trip: parsing the rendered text gives the number back. */
  lemma ParseDecimalString(n: nat)
    ensures ParseDecimal(DecimalString(n)) == n
  {
    if n > 0 {
      ParseDigits(n);
    }
  }

  /** A digit string that does not start with '0' reads as a positive number. */
  lemma {:induction false} ParsePositive(s: string)
    requires AllDigits(s) && |s| > 0 && s[0] != '0'
    ensures ParseDecimal(s) > 0
    decreases |s|
  {
    if |s| > 1 {
      ParsePositive(s[..|s| - 1]);
    }
  }

  /** The other direction of the round trip: a digit string without a leading zero is
      exactly what `Digits` renders for the number it denotes. */
  lemma {:induction false} DigitsOfParse(s: string)
    requires AllDigits(s)
    requires s == [] || s[0] != '0'
    ensures Digits(ParseDecimal(s)) == s
    decreases |s|
  {
    if s != [] {
      var init := s[..|s| - 1];
      var c := s[|s| - 1];
      var p := ParseDecimal(init);
      var n := ParseDecimal(s);
      assert n == p * 10 + DigitValue(c);
      if init != [] {
        ParsePositive(init);
        DigitsOfParse(init);
      } else {
        assert c == s[0];
      }
      assert n > 0;
      assert n / 10 == p && n % 10 == DigitValue(c);
      assert Digits(n) == Digits(p) + [DigitChar(DigitValue(c))];
      assert s == init + [c];
    }
  }

  /** Canonical decimal text ("0", or digits without a leading zero) is exactly what
      `int_to_str` renders for the number it denotes. */
  lemma DecimalStringOfParse(s: string)
    requires |s| >= 1 && AllDigits(s)
    requires s[0] == '0' ==> s == "0"
    ensures DecimalString(ParseDecimal(s)) == s
  {
    if s[0] != '0' {
      DigitsOfParse(s);
      ParsePositive(s);
    }
  }

  /** A number below 10^k has at most k digits. */
  lemma {:induction false} DigitsLength(n: nat, k: nat)
    requires n < Pow10(k)
    ensures |Digits(n)| <= k
    decreases k
  {
    if n > 0 {
      DigitsLength(n / 10, k - 1);
    }
  }

  /** A 16-bit value renders in at most five characters, so `temp[10]` and the
      caller's `buffer[20]` are never indexed out of bounds. */
  lemma DecimalStringFits(n: U16)
    ensures |Digits(n)| <= MAX_DIGITS
    ensures |DecimalString(n)| <= MAX_DIGITS
  {
    assert Pow10(MAX_DIGITS) == 100000;
    DigitsLength(n, MAX_DIGITS);
  }

  /** Dividing by ten drops the last digit: if `n` renders as the first `len` characters
      of `digits`, then `n / 10` renders as the first `len - 1` and the digit dropped is
      character `len - 1`. */
  lemma DigitsStep(n: nat, digits: string, len: nat)
    requires n > 0 && len <= |digits| && Digits(n) == digits[..len]
    ensures len >= 1 && Digits(n / 10) == digits[..len - 1]
    ensures digits[len - 1] == DigitChar(n % 10)
  {
    var init, last := Digits(n / 10), DigitChar(n % 10);
    var prefix := digits[..len];
    assert prefix == init + [last];
    assert digits[len - 1] == prefix[len - 1] == last;
    assert digits[..len - 1] == prefix[..len - 1] == init;
  }

  /** The `while (num > 0)` loop of `int_to_str`: the digits of `num` go into `temp`
      least significant first, and `count` of them are written. */
  method CollectDigits(num: U16) returns (temp: seq<char>, count: nat)
    ensures |temp| == TEMP_SIZE
    ensures count == |Digits(num)| <= MAX_DIGITS
    ensures forall m :: 0 <= m < count ==> temp[m] == Digits(num)[count - 1 - m]
  {
    ghost var digits := Digits(num);
    DecimalStringFits(num);
    temp := seq(TEMP_SIZE, _ => NUL);
    count := 0;
    var n: nat := num;
    while n > 0
      invariant 0 <= count <= |digits|
      invariant |temp| == TEMP_SIZE
      invariant Digits(n) == digits[..|digits| - count]
      invariant forall m :: 0 <= m < count ==> temp[m] == digits[|digits| - 1 - m]
      decreases n
    {
      DigitsStep(n, digits, |digits| - count);
      assert count < |digits|;
      temp := temp[count := DigitChar(n % 10)];
      count := count + 1;
      n := n / 10;
    }
    assert Digits(n) == [];
  }

  /** `int_to_str(num, str)` step by step: the digits are collected least significant
      first in `temp`, then copied in reverse into the buffer and a NUL is appended.
      The buffer is the caller's; only its first `|DecimalString(num)| + 1` chars change. */
  method IntToStr(num: U16, buffer: string) returns (str: string)
    requires |DecimalString(num)| < |buffer|
    ensures |str| == |buffer|
    ensures str[..|DecimalString(num)|] == DecimalString(num)
    ensures str[|DecimalString(num)|] == NUL
    ensures str[|DecimalString(num)| + 1..] == buffer[|DecimalString(num)| + 1..]
  {
    str := buffer;
    var i := 0;
    if num == 0 {
      str := str[i := '0'];
      i := i + 1;
      str := str[i := NUL];
      return;
    }

    var temp, j := CollectDigits(num);
    ghost var digits := Digits(num);
    var k := j - 1;
    while k >= 0
      invariant -1 <= k < j
      invariant i == j - 1 - k
      invariant |str| == |buffer|
      invariant forall m :: 0 <= m < i ==> str[m] == digits[m]
      invariant str[i..] == buffer[i..]
      decreases k
    {
      str := str[i := temp[k]];
      i := i + 1;
      k := k - 1;
    }
    str := str[i := NUL];
  }

  /** What `uart_puts` sends from the buffer `IntToStr` filled is the rendered number. */
  lemma SentDigits(num: U16, str: string)
    requires |DecimalString(num)| < |str|
    requires str[..|DecimalString(num)|] == DecimalString(num)
    requires str[|DecimalString(num)|] == NUL
    ensures UntilNul(str) == DecimalString(num)
  {
    var s := DecimalString(num);
    var r := UntilNul(str);
    assert forall m :: 0 <= m < |s| ==> IsDigit(str[m]) && str[m] != NUL;
    assert r == str[..|r|];
  }
}
