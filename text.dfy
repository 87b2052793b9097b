/** The string helpers the query builders rely on: Python's `str.isdigit`
    (restricted to ASCII), `str()` of an int, and `'&'.join`. */
module Text {

  predicate IsDigit(c: char) {
    '0' <= c <= '9'
  }

  /** Every character is a digit (the empty string included). */
  predicate AllDigits(s: string) {
    forall i :: 0 <= i < |s| ==> IsDigit(s[i])
  }

  /** `s.isdigit()`: false on the empty string, otherwise every character is a digit. */
  predicate IsDigitString(s: string) {
    |s| > 0 && AllDigits(s)
  }

  /** The number a string of decimal digits denotes, most significant digit first. */
  function DigitsValue(s: string): nat
    requires AllDigits(s)
  {
    if s == [] then 0
    else 10 * DigitsValue(s[..|s| - 1]) + (s[|s| - 1] as int - '0' as int)
  }

  /** The value of a two-digit string. */
  lemma DigitsValueTwo(s: string)
    requires |s| == 2 && AllDigits(s)
    ensures DigitsValue(s) == 10 * (s[0] as int - '0' as int) + (s[1] as int - '0' as int)
  {
    var head := s[..1];
    assert head[..0] == [] && head[0] == s[0];
    assert DigitsValue(head) == s[0] as int - '0' as int;
  }

  /** The value of a four-digit string. */
  lemma DigitsValueFour(s: string)
    requires |s| == 4 && AllDigits(s)
    ensures DigitsValue(s) == 1000 * (s[0] as int - '0' as int) + 100 * (s[1] as int - '0' as int)
                              + 10 * (s[2] as int - '0' as int) + (s[3] as int - '0' as int)
  {
    assert s[..3][..2] == s[..2];
    DigitsValueTwo(s[..2]);
  }

  function DigitChar(d: nat): (c: char)
    requires d < 10
    ensures IsDigit(c) && c as int - '0' as int == d
  {
    ('0' as int + d) as char
  }

  /** `str(n)` for n >= 0: the decimal digits of n, without leading zeros. */
  function NatToString(n: nat): (s: string)
    ensures IsDigitString(s) && DigitsValue(s) == n
    ensures s[0] == '0' ==> s == "0"
  {
    if n < 10 then [DigitChar(n)]
    else
      var prefix := NatToString(n / 10);
      var s := prefix + [DigitChar(n % 10)];
      assert s[..|s| - 1] == prefix;
      s
  }

  /** `str(i)` for any int: a minus sign before the digits of a negative value. */
  function IntToString(i: int): (s: string)
    ensures i >= 0 ==> IsDigitString(s) && DigitsValue(s) == i
    ensures i < 0 ==> |s| > 1 && s[0] == '-' && IsDigitString(s[1..]) && DigitsValue(s[1..]) == -i
    ensures (if i < 0 then s[1..] else s)[0] == '0' ==> s == "0"
  {
    if i < 0 then
      var digits := NatToString(-i);
      assert ("-" + digits)[1..] == digits;
      "-" + digits
    else NatToString(i)
  }

  /** Two ints are shown alike only when they are equal. */
  lemma IntToStringInjective(a: int, b: int)
    requires IntToString(a) == IntToString(b)
    ensures a == b
  {
  }

  /** `str(i)` holds only digits and a minus sign, so no other character occurs in it. */
  lemma IntToStringAvoids(i: int, c: char)
    requires !IsDigit(c) && c != '-'
    ensures c !in IntToString(i)
  {
    var s := IntToString(i);
    if i < 0 {
      assert forall k :: 1 <= k < |s| ==> s[k] == s[1..][k - 1];
    }
  }

  /** `sep.join(parts)`. */
  function Join(parts: seq<string>, sep: string): string
  {
    if |parts| == 0 then ""
    else if |parts| == 1 then parts[0]
    else Join(parts[..|parts| - 1], sep) + sep + parts[|parts| - 1]
  }

  /** Appending one more part adds the separator and that part at the end. */
  lemma JoinAppend(parts: seq<string>, sep: string, x: string)
    requires |parts| > 0
    ensures Join(parts + [x], sep) == Join(parts, sep) + sep + x
  {
    assert (parts + [x])[..|parts|] == parts;
  }

  /** In `a + [c] + b` with no c in a, the first c stands right after a. */
  lemma SeparatorPosition(a: string, b: string, c: char, k: nat)
    requires c !in a && k <= |a|
    ensures (a + [c] + b)[k] == c <==> k == |a|
  {
  }

  /** A string is split unambiguously at the first occurrence of a character
      that the part before it cannot contain. */
  lemma SplitAtSeparator(a1: string, b1: string, a2: string, b2: string, c: char)
    requires c !in a1 && c !in a2
    requires a1 + [c] + b1 == a2 + [c] + b2
    ensures a1 == a2 && b1 == b2
  {
    var s := a1 + [c] + b1;
    if |a1| < |a2| {
      SeparatorPosition(a2, b2, c, |a1|);
      SeparatorPosition(a1, b1, c, |a1|);
      assert false;
    } else if |a2| < |a1| {
      SeparatorPosition(a1, b1, c, |a2|);
      SeparatorPosition(a2, b2, c, |a2|);
      assert false;
    }
    assert a1 == s[..|a1|] && a2 == s[..|a2|];
    assert b1 == s[|a1| + 1..] && b2 == s[|a2| + 1..];
  }
}
