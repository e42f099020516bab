/**
 Timestamps as text. The client compares them as strings with the instant marking became
 possible; this module says exactly when that is the same as comparing times.
 */
module Timestamps {
  import opened Arithmetic
  import opened Text

  /** A UTC date and time, to the second. */
  datatype Civil = Civil(year: nat, month: nat, day: nat, hour: nat, minute: nat, second: nat)

  predicate Leap(year: nat) {
    year % 4 == 0 && (year % 100 != 0 || year % 400 == 0)
  }

  function DaysIn(year: nat, month: nat): nat {
    if month == 2 then (if Leap(year) then 29 else 28)
    else if month == 4 || month == 6 || month == 9 || month == 11 then 30
    else 31
  }

  predicate ValidCivil(c: Civil) {
    && 1 <= c.year <= 9999 && 1 <= c.month <= 12 && 1 <= c.day <= DaysIn(c.year, c.month)
    && c.hour < 24 && c.minute < 60 && c.second < 60
  }

  function DaysBeforeYear(year: nat): int
    requires year >= 1
  {
    365 * (year - 1) + (year - 1) / 4 - (year - 1) / 100 + (year - 1) / 400
  }

  function DaysBeforeMonth(year: nat, month: nat): nat {
    if month <= 1 then 0 else DaysBeforeMonth(year, month - 1) + DaysIn(year, month - 1)
  }

  const DAYS_TO_EPOCH := 719162

  /** Days since 1970-01-01. */
  function DayNumber(year: nat, month: nat, day: nat): int
    requires year >= 1
  {
    DaysBeforeYear(year) + DaysBeforeMonth(year, month) + day - 1 - DAYS_TO_EPOCH
  }

  /** Seconds since 1970-01-01T00:00:00Z. */
  function Seconds(c: Civil): int
    requires ValidCivil(c)
  {
    86400 * DayNumber(c.year, c.month, c.day) + 3600 * c.hour + 60 * c.minute + c.second
  }

  function Digit(n: nat): char
    requires n < 10
  {
    (n + '0' as int) as char
  }

  /** The last `width` decimal digits. */
  function Digits(n: nat, width: nat): (s: string)
    ensures |s| == width
  {
    if width == 0 then "" else Digits(n / 10, width - 1) + [Digit(n % 10)]
  }

  /** Fraction and zone: as few groups of three digits as the value needs. */
  function Fraction(nanos: nat): string {
    if nanos == 0 then "Z"
    else if nanos % 1000000 == 0 then "." + Digits(nanos / 1000000, 3) + "Z"
    else if nanos % 1000 == 0 then "." + Digits(nanos / 1000, 6) + "Z"
    else "." + Digits(nanos, 9) + "Z"
  }

  /** The number a run of digits spells. */
  function Number(s: string): int {
    if s == "" then 0 else 10 * Number(s[..|s| - 1]) + (s[|s| - 1] as int - '0' as int)
  }

  lemma {:induction false} DigitsSpell(n: nat, width: nat)
    requires n < Power(width)
    ensures Number(Digits(n, width)) == n
    ensures forall i | 0 <= i < width :: '0' <= Digits(n, width)[i] <= '9'
  {
    if width > 0 {
      DigitsSpell(n / 10, width - 1);
      var s := Digits(n / 10, width - 1) + [Digit(n % 10)];
      assert s[..|s| - 1] == Digits(n / 10, width - 1);
    }
  }

  lemma PowersOfThousand()
    ensures Power(3) == 1000 && Power(6) == 1000000 && Power(9) == 1000000000
  {
    assert Power(1) == 10 && Power(2) == 100;
    assert Power(4) == 10000 && Power(5) == 100000;
    assert Power(7) == 10000000 && Power(8) == 100000000;
  }

  /** A fraction is written in three, six or nine digits, the fewest that tell it, and left out if there is none. */
  lemma FractionExactly(nanos: nat) returns (digits: string, unit: nat)
    requires 0 < nanos < 1000000000
    ensures Fraction(nanos) == "." + digits + "Z" && Number(digits) * unit == nanos
    ensures (|digits|, unit) in {(3, 1000000), (6, 1000), (9, 1)}
    ensures |digits| > 3 ==> nanos % (unit * 1000) != 0
    ensures Fraction(0) == "Z"
  {
    PowersOfThousand();
    if nanos % 1000000 == 0 {
      digits, unit := Digits(nanos / 1000000, 3), 1000000;
      DigitsSpell(nanos / 1000000, 3);
    } else if nanos % 1000 == 0 {
      digits, unit := Digits(nanos / 1000, 6), 1000;
      DigitsSpell(nanos / 1000, 6);
    } else {
      digits, unit := Digits(nanos, 9), 1;
      DigitsSpell(nanos, 9);
    }
  }

  function Render(c: Civil, nanos: nat): string {
    Digits(c.year, 4) + ("-" + (Digits(c.month, 2) + ("-" + (Digits(c.day, 2) + ("T" +
      (Digits(c.hour, 2) + (":" + (Digits(c.minute, 2) + (":" + (Digits(c.second, 2) + Fraction(nanos)))))))))))
  }

  // Lexicographic order, field by field

  lemma {:induction false} LessByPrefix(p: string, q: string, u: string, v: string)
    requires |p| == |q|
    ensures Less(p + u, q + v) <==> Less(p, q) || (p == q && Less(u, v))
  {
    if p == "" {
      assert p + u == u && q + v == v;
    } else {
      assert (p + u)[1..] == p[1..] + u && (q + v)[1..] == q[1..] + v;
      LessByPrefix(p[1..], q[1..], u, v);
      assert p == [p[0]] + p[1..] && q == [q[0]] + q[1..];
    }
  }

  lemma LessSame(p: string, u: string, v: string)
    ensures Less(p + u, p + v) <==> Less(u, v)
  {
    LessByPrefix(p, p, u, v);
    LeTotal(p, p);
  }

  function Power(width: nat): nat {
    if width == 0 then 1 else 10 * Power(width - 1)
  }

  lemma LessDigit(a: nat, b: nat)
    requires a < 10 && b < 10
    ensures Less([Digit(a)], [Digit(b)]) <==> a < b
  {
    assert [Digit(a)][1..] == "" && [Digit(b)][1..] == "" && Le("", "");
    assert Digit(b) < Digit(a) <==> b < a;
    assert Digit(b) == Digit(a) <==> b == a;
  }

  lemma {:induction false} DigitsOrder(n: nat, m: nat, width: nat)
    requires n < Power(width) && m < Power(width)
    ensures Less(Digits(n, width), Digits(m, width)) <==> n < m
    ensures Digits(n, width) == Digits(m, width) <==> n == m
  {
    if width > 0 {
      var s, t := Digits(n / 10, width - 1), Digits(m / 10, width - 1);
      DigitsOrder(n / 10, m / 10, width - 1);
      LessByPrefix(s, t, [Digit(n % 10)], [Digit(m % 10)]);
      assert (s + [Digit(n % 10)])[..width - 1] == s && (t + [Digit(m % 10)])[..width - 1] == t;
      assert (s + [Digit(n % 10)])[width - 1] == Digit(n % 10) && (t + [Digit(m % 10)])[width - 1] == Digit(m % 10);
      LessDigit(n % 10, m % 10);
    }
  }

  /** One fixed-width field decides, or the rest does. */
  lemma FieldDecides(n: nat, m: nat, width: nat, u: string, v: string)
    requires n < Power(width) && m < Power(width)
    ensures Less(Digits(n, width) + u, Digits(m, width) + v) <==> n < m || (n == m && Less(u, v))
  {
    DigitsOrder(n, m, width);
    LessByPrefix(Digits(n, width), Digits(m, width), u, v);
  }

  predicate EarlierField(n: nat, m: nat, rest: bool) {
    n < m || (n == m && rest)
  }

  /** Earlier, field by field; on equal fields, as `rest` says. */
  predicate EarlierFields(c: Civil, d: Civil, rest: bool) {
    EarlierField(c.year, d.year, EarlierField(c.month, d.month, EarlierField(c.day, d.day,
      EarlierField(c.hour, d.hour, EarlierField(c.minute, d.minute, EarlierField(c.second, d.second, rest))))))
  }

  lemma Powers()
    ensures Power(2) == 100 && Power(4) == 10000
  {
    assert Power(1) == 10;
    assert Power(3) == 1000;
  }

  lemma TextOrder(c: Civil, d: Civil, n: nat, m: nat)
    requires ValidCivil(c) && ValidCivil(d)
    ensures Less(Render(c, n), Render(d, m)) <==> EarlierFields(c, d, Less(Fraction(n), Fraction(m)))
  {
    Powers();
    var s1, t1 := Digits(c.second, 2) + Fraction(n), Digits(d.second, 2) + Fraction(m);
    FieldDecides(c.second, d.second, 2, Fraction(n), Fraction(m));
    var s2, t2 := Digits(c.minute, 2) + (":" + s1), Digits(d.minute, 2) + (":" + t1);
    LessSame(":", s1, t1);
    FieldDecides(c.minute, d.minute, 2, ":" + s1, ":" + t1);
    var s3, t3 := Digits(c.hour, 2) + (":" + s2), Digits(d.hour, 2) + (":" + t2);
    LessSame(":", s2, t2);
    FieldDecides(c.hour, d.hour, 2, ":" + s2, ":" + t2);
    var s4, t4 := Digits(c.day, 2) + ("T" + s3), Digits(d.day, 2) + ("T" + t3);
    LessSame("T", s3, t3);
    FieldDecides(c.day, d.day, 2, "T" + s3, "T" + t3);
    var s5, t5 := Digits(c.month, 2) + ("-" + s4), Digits(d.month, 2) + ("-" + t4);
    LessSame("-", s4, t4);
    FieldDecides(c.month, d.month, 2, "-" + s4, "-" + t4);
    LessSame("-", s5, t5);
    FieldDecides(c.year, d.year, 4, "-" + s5, "-" + t5);
  }

  // Chronological order, field by field

  lemma YearStep(year: nat)
    requires year >= 1
    ensures DaysBeforeYear(year + 1) == DaysBeforeYear(year) + DaysBeforeMonth(year, 12) + DaysIn(year, 12)
  {
    MonthTable(year);
    DivSucc(year, 4);
    DivSucc(year, 100);
    DivSucc(year, 400);
    if year % 100 == 0 {
      MultipleOfMultiple(year, 4, 25);
    }
    if year % 400 == 0 {
      MultipleOfMultiple(year, 100, 4);
    }
  }

  lemma MonthTable(year: nat)
    ensures DaysBeforeMonth(year, 12) == if Leap(year) then 335 else 334
  {
    assert DaysBeforeMonth(year, 1) == 0;
    assert DaysBeforeMonth(year, 3) == if Leap(year) then 60 else 59;
    assert DaysBeforeMonth(year, 5) == DaysBeforeMonth(year, 3) + 61;
    assert DaysBeforeMonth(year, 7) == DaysBeforeMonth(year, 5) + 61;
    assert DaysBeforeMonth(year, 9) == DaysBeforeMonth(year, 7) + 62;
    assert DaysBeforeMonth(year, 11) == DaysBeforeMonth(year, 9) + 61;
  }

  lemma {:induction false} YearsOrdered(y: nat, z: nat)
    requires 1 <= y < z
    ensures DaysBeforeYear(y) + DaysBeforeMonth(y, 12) + DaysIn(y, 12) <= DaysBeforeYear(z)
    decreases z
  {
    YearStep(z - 1);
    if y < z - 1 {
      YearsOrdered(y, z - 1);
    } else {
      YearStep(y);
    }
  }

  lemma {:induction false} MonthsOrdered(year: nat, m: nat, n: nat)
    requires 1 <= m < n
    ensures DaysBeforeMonth(year, m) + DaysIn(year, m) <= DaysBeforeMonth(year, n)
    decreases n
  {
    if m < n - 1 {
      MonthsOrdered(year, m, n - 1);
    }
  }

  lemma DaysOrdered(c: Civil, d: Civil)
    requires ValidCivil(c) && ValidCivil(d)
    requires c.year < d.year || (c.year == d.year && (c.month < d.month || (c.month == d.month && c.day < d.day)))
    ensures DayNumber(c.year, c.month, c.day) < DayNumber(d.year, d.month, d.day)
  {
    if c.year < d.year {
      YearsOrdered(c.year, d.year);
      if c.month < 12 {
        MonthsOrdered(c.year, c.month, 12);
      }
    } else if c.month < d.month {
      MonthsOrdered(c.year, c.month, d.month);
    }
  }

  lemma FieldsThenSeconds(c: Civil, d: Civil)
    requires ValidCivil(c) && ValidCivil(d) && EarlierFields(c, d, false)
    ensures Seconds(c) < Seconds(d)
  {
    if c.year != d.year || c.month != d.month || c.day != d.day {
      DaysOrdered(c, d);
    }
  }

  /** Field order is time order. */
  lemma FieldsAreSeconds(c: Civil, d: Civil)
    requires ValidCivil(c) && ValidCivil(d)
    ensures EarlierFields(c, d, false) <==> Seconds(c) < Seconds(d)
    ensures Seconds(c) == Seconds(d) <==> c == d
  {
    if EarlierFields(c, d, false) {
      FieldsThenSeconds(c, d);
    } else if c != d {
      FieldsThenSeconds(d, c);
    }
  }

  /** The next day. */
  function DayAfter(c: Civil): Civil {
    if c.day < DaysIn(c.year, c.month) then c.(day := c.day + 1)
    else if c.month < 12 then c.(month := c.month + 1, day := 1)
    else c.(year := c.year + 1, month := 1, day := 1)
  }

  /** Time counts from 1970, and a day is 86400 seconds of it. */
  lemma SecondsCount(c: Civil)
    requires ValidCivil(c) && ValidCivil(DayAfter(c))
    ensures Seconds(DayAfter(c)) == Seconds(c) + 86400
    ensures Seconds(Civil(1970, 1, 1, c.hour, c.minute, c.second)) == (c.hour * 60 + c.minute) * 60 + c.second
  {
    if c.day == DaysIn(c.year, c.month) && c.month == 12 {
      YearStep(c.year);
    }
    assert DaysBeforeYear(1970) == 719162 && DaysBeforeMonth(1970, 1) == 0;
  }

  // The cutoff

  const MARKS_AVAILABLE_SINCE := "2026-08-28T12:01:11Z"

  const CUTOFF := Civil(2026, 8, 28, 12, 1, 11)

  const CUTOFF_SECONDS: int := Seconds(CUTOFF)

  lemma CutoffIs()
    ensures CUTOFF_SECONDS == 1787918471
  {
    MonthTable(2026);
    assert DaysBeforeMonth(2026, 2) == 31;
    assert DaysBeforeMonth(2026, 4) == 90;
    assert DaysBeforeMonth(2026, 6) == 151;
    assert DaysBeforeMonth(2026, 8) == 212;
    assert DaysBeforeYear(2026) == 739616;
  }

  lemma TwoDigits(n: nat)
    requires n < 100
    ensures Digits(n, 2) == [Digit(n / 10), Digit(n % 10)]
  {
    assert Digits(n / 10, 1) == Digits(n / 100, 0) + [Digit(n / 10)];
  }

  lemma CutoffYear()
    ensures Digits(2026, 4) == "2026"
  {
    TwoDigits(20);
    assert Digits(202, 3) == Digits(20, 2) + ['2'];
    assert Digits(2026, 4) == Digits(202, 3) + ['6'];
  }

  lemma CutoffClock()
    ensures Digits(12, 2) + (":" + (Digits(1, 2) + (":" + (Digits(11, 2) + Fraction(0))))) == "12:01:11Z"
  {
    TwoDigits(12);
    TwoDigits(1);
    TwoDigits(11);
    assert Digits(11, 2) + Fraction(0) == "11Z";
    assert Digits(1, 2) + (":" + "11Z") == "01:11Z";
  }

  lemma CutoffDate(clock: string)
    ensures Digits(2026, 4) + ("-" + (Digits(8, 2) + ("-" + (Digits(28, 2) + ("T" + clock))))) == "2026-08-28T" + clock
  {
    CutoffYear();
    TwoDigits(8);
    TwoDigits(28);
    assert Digits(28, 2) + ("T" + clock) == "28T" + clock;
    assert Digits(8, 2) + ("-" + ("28T" + clock)) == "08-28T" + clock;
  }

  lemma CutoffLiteral()
    ensures "2026-08-28T" + "12:01:11Z" == MARKS_AVAILABLE_SINCE
  {
  }

  /** The cutoff's literal is that instant, with no fraction. */
  lemma CutoffText()
    ensures Render(CUTOFF, 0) == MARKS_AVAILABLE_SINCE
  {
    CutoffClock();
    CutoffDate("12:01:11Z");
    CutoffLiteral();
  }

  lemma FractionOrder(nanos: nat)
    ensures Less(Fraction(nanos), "Z") <==> nanos != 0
  {
    if nanos == 0 {
      LeTotal("Z", "Z");
    } else {
      assert Fraction(nanos)[0] == '.';
    }
  }

  /**
   The text test calls a moment earlier than the cutoff exactly when it is, or when it lies
   strictly inside the cutoff's own second: there a fraction sorts before the bare zone letter.
   */
  lemma TextTestExactly(c: Civil, nanos: nat)
    requires ValidCivil(c)
    ensures Less(Render(c, nanos), MARKS_AVAILABLE_SINCE) <==>
              Seconds(c) < CUTOFF_SECONDS || (Seconds(c) == CUTOFF_SECONDS && nanos != 0)
  {
    CutoffText();
    TextOrder(c, CUTOFF, nanos, 0);
    FractionOrder(nanos);
    FieldsAreSeconds(c, CUTOFF);
  }

  /** It agrees with time order for a moment if and only if that moment is not inside the cutoff's second. */
  lemma TextTestAgrees(c: Civil, nanos: nat)
    requires ValidCivil(c)
    ensures (Less(Render(c, nanos), MARKS_AVAILABLE_SINCE) <==> Seconds(c) < CUTOFF_SECONDS)
              <==> !(Seconds(c) == CUTOFF_SECONDS && nanos != 0)
  {
    TextTestExactly(c, nanos);
  }

  /** A message half a second after the cutoff is taken for one from before it. */
  lemma TextTestFails()
    ensures Less(Render(CUTOFF, 500000000), MARKS_AVAILABLE_SINCE)
  {
    CutoffText();
    TextTestExactly(CUTOFF, 500000000);
  }
}
