/**
 * Cache keys of src/services/base.py: a by-id key is the raw id, a search
 * key is `f'{prefix}:{search_string}'` and a list key is
 * `f'{prefix}:{page_number}:{page_size}'`, integers written as Python's
 * `str(int)` writes them.
 */
module CacheKeys {

  function DigitChar(d: nat): char
    requires d < 10
  {
    "0123456789"[d]
  }

  function DigitValue(c: char): int
  {
    c as int - '0' as int
  }

  predicate IsDigit(c: char)
  {
    '0' <= c <= '9'
  }

  /** Decimal digits of a natural number, most significant first, no leading zero. */
  function NatDecimal(n: nat): (s: string)
    ensures |s| >= 1
    ensures forall i :: 0 <= i < |s| ==> IsDigit(s[i])
    ensures n < 10 <==> |s| == 1
    decreases n
  {
    if n < 10 then [DigitChar(n)] else NatDecimal(n / 10) + [DigitChar(n % 10)]
  }

  /** `str(n)` for a Python int: a minus sign for negatives, then the digits. */
  function IntDecimal(n: int): (s: string)
    ensures |s| >= 1
    ensures IsDigit(s[0]) || s[0] == '-'
    ensures forall i :: 1 <= i < |s| ==> IsDigit(s[i])
  {
    if n < 0 then "-" + NatDecimal(-n) else NatDecimal(n)
  }

  /** The value of a string of decimal digits. */
  function DecimalValue(s: string): int
    decreases |s|
  {
    if s == [] then 0 else DecimalValue(s[..|s| - 1]) * 10 + DigitValue(s[|s| - 1])
  }

  function ByIdKey(id: string): string
  {
    id
  }

  function SearchKey(prefix: string, searchString: string): (k: string)
    ensures |k| == |prefix| + 1 + |searchString|
    ensures k[..|prefix|] == prefix && k[|prefix|] == ':' && k[|prefix| + 1..] == searchString
  {
    prefix + ":" + searchString
  }

  /**
   * A list key starts with the prefix and a colon; the rest splits at its
   * first colon into two decimals that read back as the page number and
   * the page size.
   */
  function ListKey(prefix: string, pageNumber: int, pageSize: int): (k: string)
    ensures |k| > |prefix| + 1 && k[..|prefix|] == prefix && k[|prefix|] == ':'
    ensures var rest := k[|prefix| + 1..];
            var c := |IntDecimal(pageNumber)|;
            c < |rest| && rest[c] == ':' && ':' !in rest[..c] &&
            IntValue(rest[..c]) == pageNumber && IntValue(rest[c + 1..]) == pageSize
  {
    var number, size := IntDecimal(pageNumber), IntDecimal(pageSize);
    IntDecimalHasNoColon(pageNumber);
    IntDecimalRoundTrip(pageNumber);
    IntDecimalRoundTrip(pageSize);
    var k := prefix + ":" + number + ":" + size;
    assert k[|prefix| + 1..] == number + ":" + size;
    assert (number + ":" + size)[..|number|] == number;
    assert (number + ":" + size)[|number| + 1..] == size;
    k
  }

  /** Reading the digits back gives the number: decimal writing loses nothing. */
  lemma {:induction false} NatDecimalRoundTrip(n: nat)
    ensures DecimalValue(NatDecimal(n)) == n
    decreases n
  {
    if n >= 10 {
      NatDecimalRoundTrip(n / 10);
      var s := NatDecimal(n / 10) + [DigitChar(n % 10)];
      assert s[..|s| - 1] == NatDecimal(n / 10);
      DigitRoundTrip(n % 10);
      assert DecimalValue(s) == (n / 10) * 10 + n % 10;
    }
  }

  /** The character of a digit reads back as that digit. */
  lemma DigitRoundTrip(d: nat)
    requires d < 10
    ensures DigitValue(DigitChar(d)) == d
  {
  }

  /** `str` never writes the key separator. */
  lemma IntDecimalHasNoColon(n: int)
    ensures ':' !in IntDecimal(n)
  {
    var digits := NatDecimal(if n < 0 then -n else n);
    assert ':' !in digits by {
      assert forall i :: 0 <= i < |digits| ==> IsDigit(digits[i]);
    }
  }

  /** The first character of `str(n)` is a minus sign exactly for negative n. */
  lemma IntDecimalSign(n: int)
    ensures |IntDecimal(n)| >= 1
    ensures IntDecimal(n)[0] == '-' <==> n < 0
  {
    if n >= 0 {
      assert IsDigit(NatDecimal(n)[0]);
    }
  }

  /** Python's `int(s)` on what `str` writes: an optional minus sign, then decimal digits. */
  function IntValue(s: string): int
  {
    if |s| > 0 && s[0] == '-' then -DecimalValue(s[1..]) else DecimalValue(s)
  }

  /** Reading back `str(n)` gives n, for negative n as well. */
  lemma IntDecimalRoundTrip(n: int)
    ensures IntValue(IntDecimal(n)) == n
  {
    if n < 0 {
      NegativeDigits(n);
      NatDecimalRoundTrip(-n);
    } else {
      assert IsDigit(NatDecimal(n)[0]);
      NatDecimalRoundTrip(n);
    }
  }

  /** After the minus sign, `str(n)` of a negative n is the digits of -n. */
  lemma NegativeDigits(n: int)
    requires n < 0
    ensures IntDecimal(n)[1..] == NatDecimal(-n)
  {
    assert IntDecimal(n) == "-" + NatDecimal(-n);
  }

  /** `str` is injective on Python ints. */
  lemma IntDecimalInjective(a: int, b: int)
    ensures IntDecimal(a) == IntDecimal(b) <==> a == b
  {
    IntDecimalRoundTrip(a);
    IntDecimalRoundTrip(b);
  }

  /** Search keys under one prefix are equal exactly when the search strings are. */
  lemma SearchKeyInjective(prefix: string, s1: string, s2: string)
    ensures SearchKey(prefix, s1) == SearchKey(prefix, s2) <==> s1 == s2
  {
    if SearchKey(prefix, s1) == SearchKey(prefix, s2) {
      var k := SearchKey(prefix, s1);
      assert s1 == k[|prefix| + 1..] == s2;
    }
  }

  /** List keys under one prefix are equal exactly when page number and page size both are. */
  lemma ListKeyInjective(prefix: string, n1: int, m1: int, n2: int, m2: int)
    ensures ListKey(prefix, n1, m1) == ListKey(prefix, n2, m2) <==> n1 == n2 && m1 == m2
  {
    var k1, k2 := ListKey(prefix, n1, m1), ListKey(prefix, n2, m2);
    if k1 == k2 {
      var rest := k1[|prefix| + 1..];
      FirstColonUnique(rest, |IntDecimal(n1)|, |IntDecimal(n2)|);
    }
  }

  /** A position holding a colon with no colon before it is the first colon, hence unique. */
  lemma FirstColonUnique(s: string, c1: nat, c2: nat)
    requires c1 < |s| && s[c1] == ':' && ':' !in s[..c1]
    requires c2 < |s| && s[c2] == ':' && ':' !in s[..c2]
    ensures c1 == c2
  {
  }

  /**
   * A search for the text "n:m" reads and writes the very key of list page
   * n of size m under the same prefix.
   */
  lemma SearchKeyCollidesWithListKey(prefix: string, pageNumber: int, pageSize: int)
    ensures SearchKey(prefix, IntDecimal(pageNumber) + ":" + IntDecimal(pageSize)) == ListKey(prefix, pageNumber, pageSize)
  {
  }

  /** The concrete instance: searching "0:20" hits the key of list page 0 of size 20. */
  lemma SearchZeroTwentyIsFirstListPage(prefix: string)
    ensures SearchKey(prefix, "0:20") == ListKey(prefix, 0, 20)
  {
    assert NatDecimal(2) == "2";
    assert NatDecimal(20) == "20";
    SearchKeyCollidesWithListKey(prefix, 0, 20);
  }
}
