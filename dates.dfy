/** `localDateString(date)`: the `YYYY-MM-DD` text the ledger stores as a
    study date. The rest of the model compares dates as day numbers; the
    round trip below shows that two calendar dates give the same text only
    when they are the same date, so comparing the texts (as the ledger
    does) and comparing the days agree. */
module Dates {
  import opened Strs

  function DigitChar(n: nat): (c: char)
    requires n < 10
  {
    "0123456789"[n]
  }

  function DigitValue(c: char): nat
  {
    if '0' <= c <= '9' then (c as int - '0' as int) as nat else 0
  }

  /** `String(n)` for a non-negative integer. */
  function Decimal(n: nat): (s: string)
    ensures 1 <= |s|
    ensures n < 10 ==> |s| == 1
    ensures 10 <= n < 100 ==> |s| == 2
    ensures forall i | 0 <= i < |s| :: '0' <= s[i] <= '9'
  {
    if n < 10 then [DigitChar(n)] else Decimal(n / 10) + [DigitChar(n % 10)]
  }

  /** Reads a run of decimal digits back. */
  function ParseDecimal(s: string): nat
  {
    if s == [] then 0 else ParseDecimal(s[..|s| - 1]) * 10 + DigitValue(s[|s| - 1])
  }

  lemma {:induction false} ParseDecimalInverse(n: nat)
    ensures ParseDecimal(Decimal(n)) == n
  {
    var s := Decimal(n);
    DigitRoundTrip(n % 10);
    if n < 10 {
      assert s[..0] == [];
    } else {
      assert s[..|s| - 1] == Decimal(n / 10);
      ParseDecimalInverse(n / 10);
      assert n / 10 * 10 + n % 10 == n;
    }
  }

  /** A digit reads back as its value. */
  lemma DigitRoundTrip(d: nat)
    requires d < 10
    ensures DigitValue(DigitChar(d)) == d
  {
  }

  /** `${y}-${String(m).padStart(2, '0')}-${String(d).padStart(2, '0')}`, where
      `m` is the 1-based month and `d` the day of the month. */
  function LocalDateString(y: nat, m: nat, d: nat): string
  {
    Decimal(y) + "-" + PadStart(Decimal(m), 2, '0') + "-" + PadStart(Decimal(d), 2, '0')
  }

  /** A month or day number of one or two digits, padded, reads back as itself. */
  lemma TwoDigits(n: nat)
    requires n < 100
    ensures |PadStart(Decimal(n), 2, '0')| == 2
    ensures ParseDecimal(PadStart(Decimal(n), 2, '0')) == n
  {
    ParseDecimalInverse(n);
    var p := PadStart(Decimal(n), 2, '0');
    if n < 10 {
      assert p == ['0', DigitChar(n)];
      assert p[..1] == ['0'];
      assert ParseDecimal(p[..1]) == 0 by {
        assert p[..1][..0] == [];
      }
    }
  }

  /** Splits a date text back into year, month and day. */
  function ParseDate(s: string): (int, int, int)
  {
    if |s| < 6 then (0, 0, 0)
    else (ParseDecimal(s[..|s| - 6]), ParseDecimal(s[|s| - 5..|s| - 3]), ParseDecimal(s[|s| - 2..]))
  }

  /** The date text is ten characters for a four-digit year, has its dashes
      in fixed places, and reads back as the date it was made from. */
  lemma DateStringRoundTrip(y: nat, m: nat, d: nat)
    requires 1 <= m <= 12 && 1 <= d <= 31
    ensures ParseDate(LocalDateString(y, m, d)) == (y, m, d)
    ensures 1000 <= y <= 9999 ==> |LocalDateString(y, m, d)| == 10
    ensures var s := LocalDateString(y, m, d); s[|s| - 6] == '-' && s[|s| - 3] == '-'
  {
    TwoDigits(m);
    TwoDigits(d);
    ParseDecimalInverse(y);
    DateParts(Decimal(y), PadStart(Decimal(m), 2, '0'), PadStart(Decimal(d), 2, '0'));
    if 1000 <= y <= 9999 {
      LengthOfFourDigits(y);
    }
  }

  /** Where the parts of `year-mm-dd` sit when both last parts have two characters. */
  lemma DateParts(ys: string, ms: string, ds: string)
    requires |ms| == 2 && |ds| == 2
    ensures var s := ys + "-" + ms + "-" + ds;
      && |s| == |ys| + 6
      && s[..|s| - 6] == ys && s[|s| - 5..|s| - 3] == ms && s[|s| - 2..] == ds
      && s[|s| - 6] == '-' && s[|s| - 3] == '-'
  {
  }

  lemma LengthOfFourDigits(y: nat)
    requires 1000 <= y <= 9999
    ensures |Decimal(y)| == 4
  {
    assert |Decimal(y / 10)| == 3 by {
      assert |Decimal(y / 100)| == 2;
    }
  }

  /** Different dates never share a text. */
  lemma DateStringInjective(y1: nat, m1: nat, d1: nat, y2: nat, m2: nat, d2: nat)
    requires 1 <= m1 <= 12 && 1 <= d1 <= 31
    requires 1 <= m2 <= 12 && 1 <= d2 <= 31
    ensures LocalDateString(y1, m1, d1) == LocalDateString(y2, m2, d2) <==> (y1, m1, d1) == (y2, m2, d2)
  {
    DateStringRoundTrip(y1, m1, d1);
    DateStringRoundTrip(y2, m2, d2);
  }

  /** Leading zeros do not change the value a digit run reads as. */
  lemma {:induction false} LeadingZeros(k: nat, s: string)
    ensures ParseDecimal(seq(k, _ => '0') + s) == ParseDecimal(s)
    decreases |s|
  {
    var z: string := seq(k, _ => '0');
    if s == [] {
      assert z + s == z;
      AllZeros(k);
    } else {
      var init := s[..|s| - 1];
      assert (z + s)[..|z + s| - 1] == z + init;
      assert (z + s)[|z + s| - 1] == s[|s| - 1];
      LeadingZeros(k, init);
    }
  }

  lemma {:induction false} AllZeros(k: nat)
    ensures ParseDecimal(seq(k, _ => '0')) == 0
  {
    if k > 0 {
      var z: string := seq(k, _ => '0');
      assert z[..k - 1] == seq(k - 1, _ => '0');
      AllZeros(k - 1);
    }
  }
}
