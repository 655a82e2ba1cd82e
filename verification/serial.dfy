/** The bill serial `generateBillSerial` builds from the date and a random number. */
module Billing {
  import opened Numerals

  /**
   * `AYM-${month}-${random}-${day}` with month and day padded to two digits
   * and the random number to four. The month (`getMonth() + 1`), the day of
   * the month and the random number (`Math.floor(Math.random() * 10000)`)
   * come in as arguments.
   */
  function BillSerial(month: nat, day: nat, random: nat): (serial: string)
    ensures |serial| >= 14
  {
    Join(PadStart(DecimalString(month), 2, '0'), PadStart(DecimalString(random), 4, '0'),
      PadStart(DecimalString(day), 2, '0'))
  }

  /** The three fields behind the prefix, separated by dashes. */
  function Join(m: string, r: string, d: string): string {
    "AYM-" + m + "-" + r + "-" + d
  }

  /** Where each field of a joined serial sits. */
  lemma JoinLayout(m: string, r: string, d: string)
    requires |m| == 2 && |r| == 4 && |d| == 2
    ensures |Join(m, r, d)| == 14
    ensures Join(m, r, d)[..4] == "AYM-" && Join(m, r, d)[6] == '-' && Join(m, r, d)[11] == '-'
    ensures Join(m, r, d)[4..6] == m && Join(m, r, d)[7..11] == r && Join(m, r, d)[12..14] == d
  {
    var s := Join(m, r, d);
    assert s == "AYM-" + m + "-" + r + "-" + d;
  }

  /** A width-`w` zero-padded number below 10^w is exactly `w` digits spelling the number. */
  lemma PaddedField(n: nat, w: nat)
    requires 1 <= w && n < Pow10(w)
    ensures |PadStart(DecimalString(n), w, '0')| == w
    ensures AllDigits(PadStart(DecimalString(n), w, '0'))
    ensures ValueOf(PadStart(DecimalString(n), w, '0')) == n
  {
    DecimalStringLength(n, w);
    ValueOfPadStart(DecimalString(n), w);
    ValueOfDecimal(n);
  }

  /**
   * For a real date and a random value in [0, 9999] the serial is 14
   * characters: `AYM-`, two month digits, `-`, four random digits, `-`, two
   * day digits, and each field reads back as the value it came from.
   */
  lemma SerialLayout(month: nat, day: nat, random: nat)
    requires 1 <= month <= 12 && 1 <= day <= 31 && random <= 9999
    ensures |BillSerial(month, day, random)| == 14
    ensures BillSerial(month, day, random)[..4] == "AYM-"
    ensures BillSerial(month, day, random)[6] == '-' && BillSerial(month, day, random)[11] == '-'
    ensures AllDigits(BillSerial(month, day, random)[4..6]) && ValueOf(BillSerial(month, day, random)[4..6]) == month
    ensures AllDigits(BillSerial(month, day, random)[7..11]) && ValueOf(BillSerial(month, day, random)[7..11]) == random
    ensures AllDigits(BillSerial(month, day, random)[12..14]) && ValueOf(BillSerial(month, day, random)[12..14]) == day
  {
    assert Pow10(2) == 100 && Pow10(4) == 10000 by {
      assert Pow10(1) == 10;
      assert Pow10(3) == 1000;
    }
    var m, r, d := PadStart(DecimalString(month), 2, '0'), PadStart(DecimalString(random), 4, '0'),
                   PadStart(DecimalString(day), 2, '0');
    PaddedField(month, 2);
    PaddedField(random, 4);
    PaddedField(day, 2);
    JoinLayout(m, r, d);
  }
}
