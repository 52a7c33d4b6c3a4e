/**
 * itoa of io.c: writes the digits of a 32-bit int in a base between 2 and 16 into a
 * caller's char buffer, least significant digit first, then a sign for negative decimal
 * numbers and the terminator, and finally reverses the text in place.
 */
module Itoa {

  const INT_MIN: int := -0x8000_0000
  const INT_MAX: int := 0x7FFF_FFFF

  /** The digit for a value below 16: '0'..'9', then lowercase 'a'..'f'. */
  function DigitChar(d: nat): (c: char)
    requires d < 16
    ensures d <= 9 ==> '0' <= c <= '9'
    ensures d > 9 ==> 'a' <= c <= 'f'
  {
    if d > 9 then ((d - 10) + 'a' as int) as char else (d + '0' as int) as char
  }

  /** The value a digit character stands for. */
  function DigitValue(c: char): int
  {
    if '0' <= c <= '9' then c as int - '0' as int
    else if 'a' <= c <= 'f' then c as int - 'a' as int + 10
    else -1
  }

  lemma DigitRoundTrip(d: nat)
    requires d < 16
    ensures DigitValue(DigitChar(d)) == d
  {
  }

  /** The digits of n > 0 in base, most significant first: the reference the output is held to. */
  function Digits(n: nat, base: nat): (s: seq<char>)
    requires n > 0 && 2 <= base <= 16
    ensures |s| > 0
    decreases n
  {
    if n < base then [DigitChar(n)]
    else
      DivDecreases(n, base);
      Digits(n / base, base) + [DigitChar(n % base)]
  }

  /** The number a digit string stands for, read most significant digit first. */
  function Value(s: seq<char>, base: nat): int
  {
    if s == [] then 0 else Value(s[..|s| - 1], base) * base + DigitValue(s[|s| - 1])
  }

  /** Euclidean division by a base: quotient and remainder put n back together. */
  lemma Euclid(n: nat, base: nat)
    requires base >= 2
    ensures n == (n / base) * base + n % base
    ensures 0 <= n / base && 0 <= n % base < base
  {
  }

  lemma MulMono(q: nat, base: nat)
    requires base >= 2
    ensures q * base >= 2 * q
    ensures q >= 1 ==> q * base >= base
  {
  }

  /** n / base is strictly smaller than n (what makes the digit recursion terminate), and it
      is 0 exactly when n is a single digit. */
  lemma DivDecreases(n: nat, base: nat)
    requires n > 0 && base >= 2
    ensures 0 <= n / base < n && 0 <= n % base < base
    ensures n < base <==> n / base == 0
    ensures n < base ==> n % base == n
    ensures n == (n / base) * base + n % base
  {
    Euclid(n, base);
    MulMono(n / base, base);
  }

  /** The digits read back in their base give the number. */
  lemma {:induction false} DigitsValue(n: nat, base: nat)
    requires n > 0 && 2 <= base <= 16
    ensures Value(Digits(n, base), base) == n
    decreases n
  {
    var s := Digits(n, base);
    var q, r := n / base, n % base;
    DivDecreases(n, base);
    DigitRoundTrip(r);
    if q == 0 {
      assert s[..0] == [];
    } else {
      DigitsValue(q, base);
      assert s == Digits(q, base) + [DigitChar(r)];
      assert s[..|s| - 1] == Digits(q, base);
    }
  }

  /** No leading zero, and only digits of the base. */
  lemma {:induction false} DigitsWellFormed(n: nat, base: nat)
    requires n > 0 && 2 <= base <= 16
    ensures Digits(n, base)[0] != '0'
    ensures forall k :: 0 <= k < |Digits(n, base)| ==> 0 <= DigitValue(Digits(n, base)[k]) < base
    decreases n
  {
    DigitRoundTrip(n % base);
    if n >= base {
      DivDecreases(n, base);
      DigitsWellFormed(n / base, base);
    } else {
      DigitRoundTrip(n);
    }
  }

  /** The text itoa produces for num. */
  function Render(num: int, base: nat): (s: seq<char>)
    requires 2 <= base <= 16 && INT_MIN < num && (num >= 0 || base == 10)
    ensures num == 0 ==> s == "0"
    ensures num > 0 ==> s == Digits(num, base)
    ensures num < 0 ==> s == ['-'] + Digits(-num, base)
  {
    if num == 0 then "0"
    else if num < 0 then ['-'] + Digits(-num, base)
    else Digits(num, base)
  }

  /** The digits in the order the first loop of itoa writes them: least significant first. */
  function RevDigits(n: nat, base: nat): seq<char>
    requires 2 <= base <= 16
    decreases n
  {
    if n == 0 then []
    else
      DivDecreases(n, base);
      [DigitChar(n % base)] + RevDigits(n / base, base)
  }

  function Reverse<T>(s: seq<T>): (r: seq<T>)
    ensures |r| == |s|
    ensures forall k :: 0 <= k < |s| ==> r[k] == s[|s| - 1 - k]
  {
    if s == [] then [] else Reverse(s[1..]) + [s[0]]
  }

  lemma ReverseSnoc<T>(s: seq<T>, x: T)
    ensures Reverse(s + [x]) == [x] + Reverse(s)
  {
    var r, t := Reverse(s + [x]), [x] + Reverse(s);
    assert forall k :: 0 <= k < |r| ==> r[k] == t[k];
  }

  /** The least-significant-first digits, reversed, are the digits. */
  lemma {:induction false} ReverseDigits(n: nat, base: nat)
    requires n > 0 && 2 <= base <= 16
    ensures Reverse(RevDigits(n, base)) == Digits(n, base)
    decreases n
  {
    var q, r := n / base, n % base;
    DivDecreases(n, base);
    assert RevDigits(n, base) == [DigitChar(r)] + RevDigits(q, base);
    if q > 0 {
      ReverseDigits(q, base);
      assert Digits(n, base) == Digits(q, base) + [DigitChar(r)];
      assert Reverse(RevDigits(n, base)) == Reverse(RevDigits(q, base)) + [DigitChar(r)];
    }
  }

  function Pow10(k: nat): nat
  {
    if k == 0 then 1 else 10 * Pow10(k - 1)
  }

  /** In a base of at least ten, a number below 10^k has at most k digits. */
  lemma {:induction false} RevDigitsLength(n: nat, base: nat, k: nat)
    requires 10 <= base <= 16 && n < Pow10(k)
    ensures |RevDigits(n, base)| <= k
    decreases n
  {
    if n > 0 {
      DivDecreases(n, base);
      MulMono(n / base, base);
      assert (n / base) * base >= 10 * (n / base) by {
        Euclid(n, base);
        assert base - 10 >= 0;
        MulNonNeg(n / base, base - 10);
      }
      RevDigitsLength(n / base, base, k - 1);
    }
  }

  lemma MulNonNeg(a: nat, b: nat)
    ensures a * b >= 0 && a * (b + 10) == a * b + 10 * a
  {
  }

  /**
   * Every text itoa renders in base 10 or 16 has at most eleven characters (a sign and ten
   * digits), so printf_serial's twenty-byte buffer holds it with its terminator.
   */
  lemma RenderFitsPrintfBuffer(num: int, base: nat)
    requires (base == 10 || base == 16) && INT_MIN < num <= INT_MAX && (num >= 0 || base == 10)
    ensures |Render(num, base)| <= 11
    ensures num >= 0 ==> |Render(num, base)| <= 10
  {
    if num != 0 {
      var n: nat := if num < 0 then -num else num;
      assert Pow10(10) == 10000000000;
      RevDigitsLength(n, base, 10);
      ReverseDigits(n, base);
    }
  }

  /** The first loop of itoa: the digits of n, least significant first, from index 0 on. */
  method WriteDigits(n0: nat, str: array<char>, base: int) returns (i: nat)
    requires 2 <= base <= 16 && |RevDigits(n0, base)| <= str.Length
    modifies str
    ensures i == |RevDigits(n0, base)|
    ensures str[..i] == RevDigits(n0, base)
    ensures str[i..] == old(str[i..])
  {
    i := 0;
    var n := n0;
    while n != 0
      invariant 0 <= n && i + |RevDigits(n, base)| == |RevDigits(n0, base)|
      invariant str[..i] + RevDigits(n, base) == RevDigits(n0, base)
      invariant forall k :: i <= k < str.Length ==> str[k] == old(str[k])
      decreases n
    {
      DivDecreases(n, base);
      var rem, q := n % base, n / base;
      assert RevDigits(n, base) == [DigitChar(rem)] + RevDigits(q, base);
      str[i] := DigitChar(rem);
      i := i + 1;
      n := q;
    }
  }

  /** What itoa holds before its reversal: the digits least significant first, then the sign. */
  function Backwards(n: nat, isNegative: bool, base: nat): (s: seq<char>)
    requires 2 <= base <= 16
    ensures |s| == |RevDigits(n, base)| + (if isNegative then 1 else 0)
  {
    if isNegative then RevDigits(n, base) + ['-'] else RevDigits(n, base)
  }

  /** Reversing what the first loop and the sign leave gives the text of num. */
  lemma BackwardsReversed(num: int, base: nat)
    requires 2 <= base <= 16 && INT_MIN < num && num != 0 && (num >= 0 || base == 10)
    ensures Reverse(Backwards(if num < 0 then -num else num, num < 0, base)) == Render(num, base)
  {
    var n: nat := if num < 0 then -num else num;
    ReverseDigits(n, base);
    if num < 0 {
      ReverseSnoc(RevDigits(n, base), '-');
    }
  }

  /** The first loop of itoa, the sign and the terminator. */
  method WriteBackwards(n: nat, isNegative: bool, str: array<char>, base: int) returns (i: nat)
    requires 2 <= base <= 16 && |Backwards(n, isNegative, base)| < str.Length
    modifies str
    ensures i == |Backwards(n, isNegative, base)|
    ensures str[..i] == Backwards(n, isNegative, base) && str[i] == '\0'
    ensures str[i + 1..] == old(str[i + 1..])
  {
    ghost var s0 := str[..];
    i := WriteDigits(n, str, base);
    if isNegative {
      str[i] := '-';
      i := i + 1;
    }
    assert str[..i] == Backwards(n, isNegative, base);
    assert str[i..] == s0[i..];
    str[i] := '\0';
    assert str[i + 1..] == s0[i + 1..];
  }

  /** The second loop of itoa: swaps the ends of str[..len] towards the middle. */
  method ReverseInPlace(str: array<char>, len: nat)
    requires len <= str.Length
    modifies str
    ensures str[..len] == Reverse(old(str[..len]))
    ensures str[len..] == old(str[len..])
  {
    ghost var written := str[..len];
    var start := 0;
    var end := len - 1;
    while start < end
      invariant 0 <= start && end == len - 1 - start && start <= len
      invariant forall k :: 0 <= k < start ==> str[k] == written[len - 1 - k] && str[len - 1 - k] == written[k]
      invariant forall k :: start <= k < len - start ==> str[k] == written[k]
      invariant forall k :: len <= k < str.Length ==> str[k] == old(str[k])
    {
      var temp := str[start];
      str[start] := str[end];
      str[end] := temp;
      start := start + 1;
      end := end - 1;
    }
  }

  /** itoa for num != 0: the two loops and the sign. */
  method WriteNonZero(num: int, str: array<char>, base: int)
    requires 2 <= base <= 16 && INT_MIN < num <= INT_MAX && num != 0 && (num >= 0 || base == 10)
    requires |Render(num, base)| < str.Length
    modifies str
    ensures str[..|Render(num, base)|] == Render(num, base) && str[|Render(num, base)|] == '\0'
    ensures str[|Render(num, base)| + 1..] == old(str[|Render(num, base)| + 1..])
  {
    ghost var s0 := str[..];
    var isNegative := num < 0 && base == 10;
    var n := if isNegative then -num else num;
    BackwardsReversed(num, base);
    var i := WriteBackwards(n, isNegative, str, base);
    ghost var s1 := str[..];
    ReverseInPlace(str, i);
    assert i == |Render(num, base)|;
    assert str[i..] == s1[i..];
    assert str[i + 1..] == s1[i + 1..] by {
      assert str[i + 1..] == str[i..][1..] && s1[i + 1..] == s1[i..][1..];
    }
    assert str[i] == str[i..][0] == s1[i..][0] == '\0';
  }

  /**
   * itoa(num, str, base). The caller's buffer must have room for the text and its
   * terminator. The text and its terminator are written at the start of str; the rest of
   * str is untouched.
   */
  method Itoa(num: int, str: array<char>, base: int)
    requires 2 <= base <= 16 && INT_MIN < num <= INT_MAX && (num >= 0 || base == 10)
    requires |Render(num, base)| < str.Length
    modifies str
    ensures str[..|Render(num, base)|] == Render(num, base) && str[|Render(num, base)|] == '\0'
    ensures str[|Render(num, base)| + 1..] == old(str[|Render(num, base)| + 1..])
  {
    if num == 0 {
      ghost var s0 := str[..];
      str[0] := '0';
      str[1] := '\0';
      assert str[..1] == "0" && str[2..] == s0[2..];
    } else {
      WriteNonZero(num, str, base);
    }
  }
}
