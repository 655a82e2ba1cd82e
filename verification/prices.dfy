/** Decimal digit strings: `Number.toString()` and `parseInt` on strings of ASCII digits. */
module Numerals {
  /** JavaScript's `\d` in a regular expression: the ASCII digits only. */
  predicate IsDigit(c: char) {
    '0' <= c <= '9'
  }

  predicate AllDigits(s: string) {
    forall i :: 0 <= i < |s| ==> IsDigit(s[i])
  }

  function DigitChar(d: nat): (c: char)
    requires d < 10
    ensures IsDigit(c)
  {
    ('0' as int + d) as char
  }

  function DigitValue(c: char): (d: nat)
    requires IsDigit(c)
    ensures d < 10 && DigitChar(d) == c
  {
    c as int - '0' as int
  }

  /** The value of a string of decimal digits; leading zeros are allowed and "" is 0. */
  function ValueOf(d: string): nat
    requires AllDigits(d)
  {
    if d == [] then 0 else ValueOf(d[..|d| - 1]) * 10 + DigitValue(d[|d| - 1])
  }

  /** `n.toString()` for a natural number: decimal digits, no leading zero. */
  function DecimalString(n: nat): (r: string)
    ensures AllDigits(r) && |r| >= 1
  {
    if n < 10 then [DigitChar(n)] else DecimalString(n / 10) + [DigitChar(n % 10)]
  }

  /** Reading back the digits `toString` wrote gives the number. */
  lemma {:induction false} ValueOfDecimal(n: nat)
    ensures ValueOf(DecimalString(n)) == n
  {
    if n >= 10 {
      ValueOfDecimal(n / 10);
      var d := DecimalString(n);
      assert d[..|d| - 1] == DecimalString(n / 10);
    }
  }

  function Pow10(k: nat): (p: nat)
    ensures p >= 1
  {
    if k == 0 then 1 else 10 * Pow10(k - 1)
  }

  /** A number below 10^k is written with at most k digits. */
  lemma {:induction false} DecimalStringLength(n: nat, k: nat)
    requires 1 <= k && n < Pow10(k)
    ensures |DecimalString(n)| <= k
  {
    if n >= 10 {
      DecimalStringLength(n / 10, k - 1);
    }
  }

  /** `n` copies of `c`. */
  function Repeat(c: char, n: nat): (r: string)
    ensures |r| == n && forall i :: 0 <= i < n ==> r[i] == c
  {
    seq(n, _ => c)
  }

  /** `s.padStart(width, fill)`: prefix copies of `fill` until `s` is `width` long. */
  function PadStart(s: string, width: nat, fill: char): (r: string)
    ensures |r| == if |s| >= width then |s| else width
    ensures forall i :: 0 <= i < |s| ==> r[|r| - |s| + i] == s[i]
    ensures forall i :: 0 <= i < |r| - |s| ==> r[i] == fill
  {
    if |s| >= width then s else Repeat(fill, width - |s|) + s
  }

  /** Leading zeros do not change the value of a digit string. */
  lemma {:induction false} ValueOfLeadingZero(d: string)
    requires AllDigits(d)
    ensures ValueOf(['0'] + d) == ValueOf(d)
    decreases |d|
  {
    if d != [] {
      var z := ['0'] + d;
      assert z[..|z| - 1] == ['0'] + d[..|d| - 1];
      ValueOfLeadingZero(d[..|d| - 1]);
    }
  }

  /** Zeros in front of a digit string do not change its value. */
  lemma {:induction false} ValueOfZeros(k: nat, d: string)
    requires AllDigits(d)
    ensures AllDigits(Repeat('0', k) + d) && ValueOf(Repeat('0', k) + d) == ValueOf(d)
  {
    if k > 0 {
      ValueOfZeros(k - 1, d);
      assert Repeat('0', k) + d == ['0'] + (Repeat('0', k - 1) + d);
      ValueOfLeadingZero(Repeat('0', k - 1) + d);
    } else {
      assert Repeat('0', k) + d == d;
    }
  }

  /** Zero-padding a digit string keeps its value. */
  lemma ValueOfPadStart(d: string, width: nat)
    requires AllDigits(d)
    ensures AllDigits(PadStart(d, width, '0'))
    ensures ValueOf(PadStart(d, width, '0')) == ValueOf(d)
  {
    if |d| < width {
      ValueOfZeros(width - |d|, d);
    }
  }
}

/** Price strings: `parsePrice`, `formatNumberWithCommas` and `formatPrice` of `ProductDB`. */
module Prices {
  import opened Numerals

  /** The currency word appended by `formatPrice`, with its separating space. */
  const Currency: string := " افغانی"

  /**
   * The digits of `s` in order: `.replace(/[^\d,]/g, '')` keeps digits and commas,
   * then `.replace(/,/g, '')` drops the commas.
   */
  function DigitsOf(s: string): (r: string)
    ensures AllDigits(r) && |r| <= |s|
    ensures (forall i :: 0 <= i < |s| ==> !IsDigit(s[i])) ==> r == []
  {
    if s == [] then []
    else DigitsOf(s[..|s| - 1]) + (if IsDigit(s[|s| - 1]) then [s[|s| - 1]] else [])
  }

  lemma {:induction false} DigitsOfConcat(a: string, b: string)
    ensures DigitsOf(a + b) == DigitsOf(a) + DigitsOf(b)
    decreases |b|
  {
    if b == [] {
      assert a + b == a;
    } else {
      assert (a + b)[..|a + b| - 1] == a + b[..|b| - 1];
      assert (a + b)[|a + b| - 1] == b[|b| - 1];
      DigitsOfConcat(a, b[..|b| - 1]);
    }
  }

  lemma {:induction false} DigitsOfDigits(d: string)
    requires AllDigits(d)
    ensures DigitsOf(d) == d
    decreases |d|
  {
    if d != [] {
      DigitsOfDigits(d[..|d| - 1]);
    }
  }

  /**
   * `parsePrice`: a falsy (empty) string is 0; otherwise the number its digits
   * spell, and 0 when it has none (`parseInt('')` is NaN and `NaN || 0` is 0).
   */
  function ParsePrice(price: string): (n: nat)
    ensures (forall i :: 0 <= i < |price| ==> !IsDigit(price[i])) ==> n == 0
  {
    if price == "" then 0 else ValueOf(DigitsOf(price))
  }

  /** The price depends on nothing but the ASCII digits of the string. */
  lemma ParsePriceDigitsOnly(a: string, b: string)
    requires DigitsOf(a) == DigitsOf(b)
    ensures ParsePrice(a) == ParsePrice(b)
  {
  }

  /**
   * The effect of `.replace(/\B(?=(\d{3})+(?!\d))/g, ",")` on a string of digits:
   * a comma goes before every position that has a positive multiple of three
   * digits after it, except the very start.
   */
  function GroupThousands(d: string): (r: string)
    ensures |r| >= |d|
  {
    if |d| <= 3 then d else GroupThousands(d[..|d| - 3]) + "," + d[|d| - 3..]
  }

  /** Grouping adds one comma per full group of three digits after the first digit. */
  lemma {:induction false} GroupThousandsLength(d: string)
    requires |d| >= 1
    ensures |GroupThousands(d)| == |d| + (|d| - 1) / 3
    decreases |d|
  {
    if |d| > 3 {
      GroupThousandsLength(d[..|d| - 3]);
    }
  }

  /**
   * Where the commas go: counting from the right, every fourth character of
   * the grouped string is a comma, and no other character is.
   */
  lemma {:induction false} GroupThousandsCommas(d: string, j: nat)
    requires AllDigits(d) && j < |GroupThousands(d)|
    ensures GroupThousands(d)[j] == ',' <==> (|GroupThousands(d)| - j) % 4 == 0
    decreases |d|
  {
    var g := GroupThousands(d);
    if |d| <= 3 {
      assert IsDigit(d[j]);
    } else {
      var head, tail := d[..|d| - 3], d[|d| - 3..];
      var h := GroupThousands(head);
      assert g == h + "," + tail;
      if j < |h| {
        GroupThousandsCommas(head, j);
        assert g[j] == h[j];
        assert |g| - j == (|h| - j) + 4;
      } else if j > |h| {
        assert g[j] == tail[j - |h| - 1];
        assert IsDigit(tail[j - |h| - 1]);
        assert 1 <= |g| - j <= 3;
      }
    }
  }

  /** Removing the commas from the grouped string gives back the digits. */
  lemma {:induction false} GroupThousandsDigits(d: string)
    requires AllDigits(d)
    ensures DigitsOf(GroupThousands(d)) == d
    decreases |d|
  {
    if |d| <= 3 {
      DigitsOfDigits(d);
    } else {
      var head, tail := d[..|d| - 3], d[|d| - 3..];
      var h := GroupThousands(head);
      assert GroupThousands(d) == h + "," + tail;
      assert DigitsOf(h + ",") == head by {
        DigitsOfConcat(h, ",");
        GroupThousandsDigits(head);
      }
      assert DigitsOf(tail) == tail by {
        DigitsOfDigits(tail);
      }
      DigitsOfConcat(h + ",", tail);
      assert d == head + tail;
    }
  }

  /** `formatNumberWithCommas` on a natural number: "0" for 0, else its digits grouped by three. */
  function FormatNumberWithCommas(n: nat): (r: string)
    ensures |r| >= 1
  {
    if n == 0 then "0" else GroupThousands(DecimalString(n))
  }

  /** Parsing a formatted number gives the number back. */
  lemma ParseFormatRoundTrip(n: nat)
    ensures ParsePrice(FormatNumberWithCommas(n)) == n
  {
    var f := FormatNumberWithCommas(n);
    if n == 0 {
      DigitsOfDigits("0");
      assert ValueOf("0") == 0;
    } else {
      var d := DecimalString(n);
      GroupThousandsDigits(d);
      ValueOfDecimal(n);
      assert DigitsOf(f) == d;
    }
    assert f != "";
  }

  /** The two kinds of argument `formatPrice` distinguishes with `typeof price === 'string'`. */
  datatype PriceInput = PriceText(text: string) | PriceNumber(amount: nat)

  /** `formatPrice`: the grouped number followed by the currency word. */
  function FormatPrice(price: PriceInput): (r: string)
    ensures |r| > |Currency| && forall i :: 0 <= i < |Currency| ==> r[|r| - |Currency| + i] == Currency[i]
  {
    match price
    case PriceText(s) => FormatNumberWithCommas(ParsePrice(s)) + Currency
    case PriceNumber(n) => FormatNumberWithCommas(n) + Currency
  }

  lemma CurrencyHasNoDigits()
    ensures DigitsOf(Currency) == []
  {
    assert |Currency| == 7;
    forall i | 0 <= i < 7 ensures !IsDigit(Currency[i]) {
      assert Currency[i] == ' ' || Currency[i] as int >= 0x600;
    }
  }

  /** A formatted price parses back to the amount it shows. */
  lemma ParseFormattedPrice(n: nat)
    ensures ParsePrice(FormatPrice(PriceNumber(n))) == n
  {
    var f := FormatNumberWithCommas(n);
    ParseFormatRoundTrip(n);
    DigitsOfConcat(f, Currency);
    CurrencyHasNoDigits();
    assert DigitsOf(f + Currency) == DigitsOf(f);
    assert f != "" && f + Currency != "";
    assert ParsePrice(f) == ValueOf(DigitsOf(f));
  }

  /** Formatting an already formatted price string changes nothing. */
  lemma FormatPriceIdempotent(s: string)
    ensures FormatPrice(PriceText(FormatPrice(PriceText(s)))) == FormatPrice(PriceText(s))
  {
    ParseFormattedPrice(ParsePrice(s));
  }
}
