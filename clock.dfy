/**
 * The wall-clock readings the logger formats with dayjs, passed in explicitly, and the
 * two renderings it uses: the month key (`YYYY-MM`, or `YYYY/MM` in the oldest script)
 * and the timestamp (`YYYY-MM-DDTHH:mm:ss`, or `YYYY/MM/DDTHH:mm:ss`).
 */
module Clock {

  /** One local calendar reading of the clock, to the second. */
  datatype DateTime = DateTime(year: nat, month: nat, day: nat, hour: nat, minute: nat, second: nat)

  predicate WellFormed(t: DateTime)
  {
    t.year <= 9999 && 1 <= t.month <= 12 && 1 <= t.day <= 31
    && t.hour < 24 && t.minute < 60 && t.second < 60
  }

  /** A reading the clock can produce. */
  type Instant = t: DateTime | WellFormed(t) witness DateTime(1970, 1, 1, 0, 0, 0)

  predicate SameMonth(a: Instant, b: Instant)
  {
    a.year == b.year && a.month == b.month
  }

  predicate IsDigit(c: char)
  {
    '0' <= c <= '9'
  }

  function Digit(n: nat): (c: char)
    requires n < 10
    ensures IsDigit(c) && DigitValue(c) == n
  {
    (48 + n) as char
  }

  /** The value of a decimal digit character (0 for any other character). */
  function DigitValue(c: char): nat
  {
    if IsDigit(c) then c as int - 48 else 0
  }

  /** The value of a string of decimal digits, most significant first. */
  function Decimal(s: string): nat
  {
    if s == [] then 0 else 10 * Decimal(s[..|s| - 1]) + DigitValue(s[|s| - 1])
  }

  /** `n` in two digits with a leading zero (the dayjs tokens `MM`, `DD`, `HH`, `mm`, `ss`). */
  function Pad2(n: nat): (s: string)
    requires n < 100
    ensures |s| == 2 && IsDigit(s[0]) && IsDigit(s[1])
    ensures Decimal(s) == n
  {
    var s := [Digit(n / 10), Digit(n % 10)];
    assert s[..1][..0] == [];
    assert Decimal(s[..1]) == n / 10;
    s
  }

  /** `n` in four digits with leading zeros (the dayjs token `YYYY`). */
  function Pad4(n: nat): (s: string)
    requires n < 10000
    ensures |s| == 4 && forall i :: 0 <= i < 4 ==> IsDigit(s[i])
    ensures Decimal(s) == n
  {
    var s := [Digit(n / 1000), Digit(n / 100 % 10), Digit(n / 10 % 10), Digit(n % 10)];
    assert s[..1][..0] == [];
    assert s[..2][..1] == s[..1] && s[..3][..2] == s[..2] && s[..4][..3] == s[..3];
    assert Decimal(s[..1]) == n / 1000;
    assert Decimal(s[..2]) == n / 100 by {
      assert n / 100 == 10 * (n / 1000) + n / 100 % 10;
    }
    assert Decimal(s[..3]) == n / 10 by {
      assert n / 10 == 10 * (n / 100) + n / 10 % 10;
    }
    assert s[..4] == s;
    s
  }

  /** The month of `t` as `YYYY` `sep` `MM`. */
  function MonthKey(t: Instant, sep: char): (key: string)
    ensures |key| == 7 && key[4] == sep
    ensures forall i :: 0 <= i < 7 && i != 4 ==> IsDigit(key[i])
  {
    Pad4(t.year) + [sep] + Pad2(t.month)
  }

  /** Reads back the year and the month from a month key. */
  function MonthOfKey(key: string): (nat, nat)
    requires |key| == 7
  {
    (Decimal(key[..4]), Decimal(key[5..]))
  }

  lemma MonthKeyRoundTrip(t: Instant, sep: char)
    ensures MonthOfKey(MonthKey(t, sep)) == (t.year, t.month)
  {
    var key := MonthKey(t, sep);
    assert key[..4] == Pad4(t.year);
    assert key[5..] == Pad2(t.month);
  }

  /** Two readings have the same month key exactly when they fall in the same month. */
  lemma MonthKeyInjective(a: Instant, b: Instant, sep: char)
    ensures MonthKey(a, sep) == MonthKey(b, sep) <==> SameMonth(a, b)
  {
    if MonthKey(a, sep) == MonthKey(b, sep) {
      MonthKeyRoundTrip(a, sep);
      MonthKeyRoundTrip(b, sep);
    }
  }

  /** `t` as `YYYY` `sep` `MM` `sep` `DD` `T` `HH` `:` `mm` `:` `ss`. */
  function TimeStamp(t: Instant, sep: char): (s: string)
    ensures |s| == 19
    ensures s[4] == sep && s[7] == sep && s[10] == 'T' && s[13] == ':' && s[16] == ':'
    ensures forall i :: 0 <= i < 19 && i !in {4, 7, 10, 13, 16} ==> IsDigit(s[i])
  {
    Pad4(t.year) + [sep] + Pad2(t.month) + [sep] + Pad2(t.day)
    + "T" + Pad2(t.hour) + ":" + Pad2(t.minute) + ":" + Pad2(t.second)
  }

  /** Reads back every field of a timestamp. */
  function DateTimeOfStamp(s: string): DateTime
    requires |s| == 19
    requires forall i :: 0 <= i < 19 && i !in {4, 7, 10, 13, 16} ==> IsDigit(s[i])
  {
    DateTime(Decimal(s[..4]), Decimal(s[5..7]), Decimal(s[8..10]),
             Decimal(s[11..13]), Decimal(s[14..16]), Decimal(s[17..]))
  }

  lemma TimeStampRoundTrip(t: Instant, sep: char)
    ensures DateTimeOfStamp(TimeStamp(t, sep)) == t
  {
    var s := TimeStamp(t, sep);
    assert s[..4] == Pad4(t.year);
    assert s[5..7] == Pad2(t.month);
    assert s[8..10] == Pad2(t.day);
    assert s[11..13] == Pad2(t.hour);
    assert s[14..16] == Pad2(t.minute);
    assert s[17..] == Pad2(t.second);
  }

  /** Two readings have the same timestamp exactly when they are the same reading. */
  lemma TimeStampInjective(a: Instant, b: Instant, sep: char)
    ensures TimeStamp(a, sep) == TimeStamp(b, sep) <==> a == b
  {
    if TimeStamp(a, sep) == TimeStamp(b, sep) {
      TimeStampRoundTrip(a, sep);
      TimeStampRoundTrip(b, sep);
    }
  }
}
