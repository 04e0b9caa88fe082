/** `time(m)` (OrToolsPoC.java:167-171): minutes since midnight rendered as
    `String.format("%02d:%02d hs", m / 60, m % 60)` with Java's truncating
    `/` and `%` on `long`. */
module TimeFormat {
  import opened JavaArith

  datatype HoursMinutes = HoursMinutes(hours: int, minutes: int)

  /** The hour and minute fields `time(m)` prints: `m / 60` and `m % 60` in Java. */
  function Time(m: int): (t: HoursMinutes)
    ensures t.hours * 60 + t.minutes == m
    ensures -60 < t.minutes < 60
    ensures m >= 0 ==> 0 <= t.minutes && 0 <= t.hours
    ensures m <= 0 ==> t.minutes <= 0 && t.hours <= 0
  {
    QuotRem(m, 60);
    HoursMinutes(Quot(m, 60), Rem(m, 60))
  }

  /** For a non-negative minute count the two fields are exactly the
      Euclidean quotient and remainder: the unique split with 0 <= minutes < 60. */
  lemma TimeUnique(m: int, h: int, mm: int)
    requires m >= 0 && 0 <= mm < 60 && h * 60 + mm == m
    ensures Time(m) == HoursMinutes(h, mm)
  {
    var t := Time(m);
    if t.hours < h {
      assert false;
    } else if t.hours > h {
      assert false;
    }
  }

  function DigitChar(d: int): char
    requires 0 <= d < 10
  {
    "0123456789"[d]
  }

  predicate IsDigit(c: char) { '0' <= c <= '9' }

  function DigitValue(c: char): int
  {
    c as int - '0' as int
  }

  /** The decimal digits of `n`, most significant first, without leading zeros. */
  function Digits(n: nat): (s: string)
    ensures 1 <= |s|
    ensures n < 10 ==> |s| == 1
    ensures 10 <= n < 100 ==> |s| == 2
    ensures forall k :: 0 <= k < |s| ==> IsDigit(s[k])
    decreases n
  {
    if n < 10 then [DigitChar(n)] else Digits(n / 10) + [DigitChar(n % 10)]
  }

  /** The number a string of decimal digits denotes (the reading direction of `%d`). */
  function DecimalValue(s: string): int
  {
    if s == [] then 0 else DecimalValue(s[..|s| - 1]) * 10 + DigitValue(s[|s| - 1])
  }

  lemma {:induction false} DigitsRoundTrip(n: nat)
    ensures DecimalValue(Digits(n)) == n
    decreases n
  {
    if n >= 10 {
      DigitsRoundTrip(n / 10);
      var s := Digits(n);
      assert s[..|s| - 1] == Digits(n / 10);
    }
  }

  /** Leading zeros do not change the value of a digit string. */
  lemma {:induction false} LeadingZeros(z: nat, s: string)
    ensures DecimalValue(seq(z, _ => '0') + s) == DecimalValue(s)
    decreases |s|, z
  {
    var p := seq(z, _ => '0');
    if s == [] {
      assert p + s == p;
      if z > 0 {
        assert p[..z - 1] == seq(z - 1, _ => '0');
        LeadingZeros(z - 1, []);
        assert seq(z - 1, _ => '0') + [] == seq(z - 1, _ => '0');
      }
    } else {
      assert (p + s)[..|p + s| - 1] == p + s[..|s| - 1];
      LeadingZeros(z, s[..|s| - 1]);
    }
  }

  /** `String.format("%02d", n)`: at least two characters, zero-padded after the sign. */
  function Format02d(n: int): (s: string)
    ensures |s| >= 2
  {
    if n >= 0 then
      var d := Digits(n);
      seq(if |d| < 2 then 2 - |d| else 0, _ => '0') + d
    else
      "-" + Digits(-n)
  }

  /** A non-negative field is printed as at least two decimal digits that read back
      as the field; one below 100 as exactly two. A negative field keeps its sign. */
  lemma Format02dCorrect(n: int)
    ensures |Format02d(n)| >= 2
    ensures 0 <= n ==> (forall k :: 0 <= k < |Format02d(n)| ==> IsDigit(Format02d(n)[k]))
                       && DecimalValue(Format02d(n)) == n
    ensures 0 <= n < 100 ==> |Format02d(n)| == 2
    ensures n < 0 ==> Format02d(n)[0] == '-' && DecimalValue(Format02d(n)[1..]) == -n
  {
    if n >= 0 {
      var d := Digits(n);
      DigitsRoundTrip(n);
      LeadingZeros(if |d| < 2 then 2 - |d| else 0, d);
    } else {
      DigitsRoundTrip(-n);
      assert Format02d(n)[1..] == Digits(-n);
    }
  }

  /** The text `time(m)` returns. */
  function TimeText(m: int): (s: string)
    ensures |s| >= 8
  {
    var t := Time(m);
    Format02d(t.hours) + ":" + Format02d(t.minutes) + " hs"
  }

  /** Reads a `time` text back: the hours are everything before the last six
      characters (":MM hs"), the minutes the two characters after the colon. */
  function ParseTimeText(s: string): int
    requires |s| >= 8
  {
    DecimalValue(s[..|s| - 6]) * 60 + DecimalValue(s[|s| - 5..|s| - 3])
  }

  /** For any non-negative minute count the text has the shape `HH:MM hs`, with at
      least two hour digits and exactly two minute digits, and reads back to `m`. */
  lemma TimeTextRoundTrip(m: int)
    requires m >= 0
    ensures |TimeText(m)| >= 8
    ensures TimeText(m)[|TimeText(m)| - 6] == ':'
    ensures TimeText(m)[|TimeText(m)| - 3..] == " hs"
    ensures ParseTimeText(TimeText(m)) == m
  {
    var t := Time(m);
    Format02dCorrect(t.hours);
    Format02dCorrect(t.minutes);
    var h, mm := Format02d(t.hours), Format02d(t.minutes);
    var s := TimeText(m);
    assert s == h + ":" + mm + " hs";
    assert |mm| == 2;
    assert s[..|s| - 6] == h;
    assert s[|s| - 5..|s| - 3] == mm;
  }
}
