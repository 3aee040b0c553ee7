/**
 * Timestamps as TEXT columns (src/db.rs): `%Y-%m-%dT%H:%M:%S%.3f` of a UTC time, compared by SQL as
 * text. Leap seconds are not modelled.
 */
module Timestamp {
  import opened Text

  predicate Leap(year: nat) {
    year % 4 == 0 && (year % 100 != 0 || year % 400 == 0)
  }

  function DaysIn(year: nat, month: nat): nat {
    if month == 2 then (if Leap(year) then 29 else 28)
    else if month in {4, 6, 9, 11} then 30 else 31
  }

  function YearLength(year: nat): nat {
    if Leap(year) then 366 else 365
  }

  datatype Time = Time(year: nat, month: nat, day: nat, hour: nat, minute: nat, second: nat, nano: nat) {
    ghost predicate Valid() {
      && 1 <= month <= 12 && 1 <= day <= DaysIn(year, month)
      && hour < 24 && minute < 60 && second < 60 && nano < 1_000_000_000
    }

    function Millisecond(): nat {
      nano / 1_000_000
    }
  }

  // ---- The instant ---------------------------------------------------------

  ghost function YearStart(year: nat): nat {
    if year == 0 then 0 else YearStart(year - 1) + YearLength(year - 1)
  }

  /** Days of the year before the month begins. */
  ghost function MonthStart(year: nat, month: nat): nat
    requires month >= 1
  {
    if month == 1 then 0 else MonthStart(year, month - 1) + DaysIn(year, month - 1)
  }

  /** Days since the first of January of the year 0. */
  ghost function Day(t: Time): nat
    requires t.Valid()
  {
    YearStart(t.year) + MonthStart(t.year, t.month) + t.day - 1
  }

  ghost function Seconds(t: Time): nat
    requires t.Valid()
  {
    ((Day(t) * 24 + t.hour) * 60 + t.minute) * 60 + t.second
  }

  ghost function Nanos(t: Time): nat
    requires t.Valid()
  {
    Seconds(t) * 1_000_000_000 + t.nano
  }

  /** The instant truncated to milliseconds. */
  ghost function Millis(t: Time): nat
    requires t.Valid()
  {
    Nanos(t) / 1_000_000
  }

  // ---- The text ------------------------------------------------------------

  function Pow10(w: nat): nat {
    if w == 0 then 1 else 10 * Pow10(w - 1)
  }

  /** `n` with leading zeros, `w` digits wide. */
  function Pad(n: nat, w: nat): (s: string)
    requires n < Pow10(w)
    ensures |s| == w
  {
    if w == 0 then "" else Pad(n / 10, w - 1) + [Digit(n % 10)]
  }

  /** The year has four digits, and beyond them a sign in front. */
  function YearText(year: nat): string {
    if year < 10000 then Pad(year, 4) else "+" + Decimal(year)
  }

  lemma Widths()
    ensures Pow10(2) == 100 && Pow10(3) == 1000 && Pow10(4) == 10000
  {
  }

  function TimeOfDay(t: Time): string
    requires t.Valid()
  {
    Widths();
    Pad(t.hour, 2) + ":" + (Pad(t.minute, 2) + ":" + (Pad(t.second, 2) + "." + Pad(t.Millisecond(), 3)))
  }

  function FormatTime(t: Time): string
    requires t.Valid()
  {
    Widths();
    YearText(t.year) + "-" + (Pad(t.month, 2) + "-" + (Pad(t.day, 2) + "T" + TimeOfDay(t)))
  }

  // ---- Both are the order of the fields ------------------------------------

  lemma {:induction false} PadOrder(a: nat, b: nat, w: nat)
    requires a < Pow10(w) && b < Pow10(w)
    ensures Less(Pad(a, w), Pad(b, w)) <==> a < b
    ensures Pad(a, w) == Pad(b, w) <==> a == b
    decreases w
  {
    if w > 0 {
      var x, y := [Digit(a % 10)], [Digit(b % 10)];
      PadOrder(a / 10, b / 10, w - 1);
      LessConcat(Pad(a / 10, w - 1), Pad(b / 10, w - 1), x, y);
      assert Less(x, y) <==> a % 10 < b % 10;
      if Pad(a, w) == Pad(b, w) {
        assert Pad(a, w)[..w - 1] == Pad(a / 10, w - 1) && Pad(b, w)[..w - 1] == Pad(b / 10, w - 1);
        assert Pad(a, w)[w - 1] == x[0] && Pad(b, w)[w - 1] == y[0];
      }
    }
  }

  lemma FieldOrder(a: nat, b: nat, w: nat, c: string, x: string, y: string)
    requires a < Pow10(w) && b < Pow10(w)
    ensures Less(Pad(a, w) + c + x, Pad(b, w) + c + y) <==> a < b || (a == b && Less(x, y))
  {
    PadOrder(a, b, w);
    assert Pad(a, w) + c + x == Pad(a, w) + (c + x) && Pad(b, w) + c + y == Pad(b, w) + (c + y);
    LessConcat(Pad(a, w), Pad(b, w), c + x, c + y);
    LessConcat(c, c, x, y);
    if Less(c, c) {
      LessAsymmetric(c, c);
    }
  }

  lemma Radix(a: nat, b: nat, r: nat, x: nat, y: nat)
    requires x < r && y < r
    ensures a * r + x < b * r + y <==> a < b || (a == b && x < y)
  {
    if a < b {
      assert (a + 1) * r <= b * r;
    } else if b < a {
      assert (b + 1) * r <= a * r;
    }
  }

  lemma {:induction false} YearOrder(a: nat, b: nat)
    requires a < b
    ensures YearStart(a) + YearLength(a) <= YearStart(b)
    decreases b
  {
    if a < b - 1 {
      YearOrder(a, b - 1);
    }
  }

  lemma {:induction false} MonthOrder(year: nat, a: nat, b: nat)
    requires 1 <= a < b
    ensures MonthStart(year, a) + DaysIn(year, a) <= MonthStart(year, b)
    decreases b
  {
    if a < b - 1 {
      MonthOrder(year, a, b - 1);
    }
  }

  lemma MonthsFillYear(year: nat, month: nat)
    requires 1 <= month <= 12
    ensures MonthStart(year, month) + DaysIn(year, month) <= YearLength(year)
  {
    if month < 12 {
      MonthOrder(year, month, 12);
    }
    YearOfMonths(year);
  }

  lemma YearOfMonths(year: nat)
    ensures MonthStart(year, 12) + 31 == YearLength(year)
  {
    var feb := DaysIn(year, 2);
    assert MonthStart(year, 2) == 31;
    assert MonthStart(year, 3) == 31 + feb;
    assert MonthStart(year, 6) == 31 + feb + 31 + 30 + 31 by {
      assert MonthStart(year, 4) == 31 + feb + 31;
      assert MonthStart(year, 5) == 31 + feb + 31 + 30;
    }
    assert MonthStart(year, 9) == MonthStart(year, 6) + 30 + 31 + 31 by {
      assert MonthStart(year, 7) == MonthStart(year, 6) + 30;
      assert MonthStart(year, 8) == MonthStart(year, 7) + 31;
    }
    assert MonthStart(year, 10) == MonthStart(year, 9) + 30;
    assert MonthStart(year, 11) == MonthStart(year, 10) + 31;
  }

  lemma DayOrder(a: Time, b: Time)
    requires a.Valid() && b.Valid()
    ensures Day(a) < Day(b) <==>
      a.year < b.year || (a.year == b.year && (a.month < b.month || (a.month == b.month && a.day < b.day)))
    ensures Day(a) == Day(b) ==> a.year == b.year && a.month == b.month && a.day == b.day
  {
    MonthsFillYear(a.year, a.month);
    MonthsFillYear(b.year, b.month);
    if a.year < b.year {
      YearOrder(a.year, b.year);
    } else if b.year < a.year {
      YearOrder(b.year, a.year);
    } else if a.month < b.month {
      MonthOrder(a.year, a.month, b.month);
    } else if b.month < a.month {
      MonthOrder(a.year, b.month, a.month);
    }
  }

  lemma MillisParts(t: Time)
    requires t.Valid()
    ensures Millis(t) == Seconds(t) * 1000 + t.Millisecond() && t.Millisecond() < 1000
  {
    var s := Seconds(t);
    assert s * 1_000_000_000 + t.nano == (s * 1000) * 1_000_000 + t.nano;
    DivideShifted(s * 1000, t.nano, 1_000_000);
  }

  lemma DivideShifted(q: nat, n: nat, d: nat)
    requires d > 0
    ensures (q * d + n) / d == q + n / d
  {
    var r := n % d;
    assert q * d + n == (q + n / d) * d + r by {
      assert n == n / d * d + r;
      assert q * d + n / d * d == (q + n / d) * d;
    }
    DivideUnique(q * d + n, q + n / d, r, d);
  }

  lemma DivideUnique(x: nat, q: nat, r: nat, d: nat)
    requires d > 0 && r < d && x == q * d + r
    ensures x / d == q
  {
    var p := x / d;
    assert x == p * d + x % d;
    if p < q {
      ProductGrows(p + 1, q, d);
    } else if q < p {
      ProductGrows(q + 1, p, d);
    }
  }

  lemma ProductGrows(a: nat, b: nat, d: nat)
    requires a <= b
    ensures a * d <= b * d
  {
  }

  /** The order of the instants, field by field. */
  lemma MillisOrder(a: Time, b: Time)
    requires a.Valid() && b.Valid()
    ensures Millis(a) < Millis(b) <==>
      Day(a) < Day(b) || (Day(a) == Day(b) && (a.hour < b.hour || (a.hour == b.hour && (a.minute < b.minute
      || (a.minute == b.minute && (a.second < b.second || (a.second == b.second && a.Millisecond() < b.Millisecond())))))))
  {
    MillisParts(a);
    MillisParts(b);
    Radix(Seconds(a), Seconds(b), 1000, a.Millisecond(), b.Millisecond());
    Radix((Day(a) * 24 + a.hour) * 60 + a.minute, (Day(b) * 24 + b.hour) * 60 + b.minute, 60, a.second, b.second);
    Radix(Day(a) * 24 + a.hour, Day(b) * 24 + b.hour, 60, a.minute, b.minute);
    Radix(Day(a), Day(b), 24, a.hour, b.hour);
  }

  lemma TimeOfDayOrder(a: Time, b: Time)
    requires a.Valid() && b.Valid()
    ensures Less(TimeOfDay(a), TimeOfDay(b)) <==>
      a.hour < b.hour || (a.hour == b.hour && (a.minute < b.minute
      || (a.minute == b.minute && (a.second < b.second || (a.second == b.second && a.Millisecond() < b.Millisecond())))))
  {
    Widths();
    var x, y := Pad(a.Millisecond(), 3), Pad(b.Millisecond(), 3);
    PadOrder(a.Millisecond(), b.Millisecond(), 3);
    FieldOrder(a.second, b.second, 2, ".", x, y);
    var sa, sb := Pad(a.second, 2) + "." + x, Pad(b.second, 2) + "." + y;
    FieldOrder(a.minute, b.minute, 2, ":", sa, sb);
    FieldOrder(a.hour, b.hour, 2, ":", Pad(a.minute, 2) + ":" + sa, Pad(b.minute, 2) + ":" + sb);
  }

  /** For years of four digits, text order is time order at millisecond resolution. */
  lemma TextOrderIsTimeOrder(a: Time, b: Time)
    requires a.Valid() && b.Valid() && a.year < 10000 && b.year < 10000
    ensures Less(FormatTime(a), FormatTime(b)) <==> Millis(a) < Millis(b)
  {
    Widths();
    TimeOfDayOrder(a, b);
    MillisOrder(a, b);
    DayOrder(a, b);
    var ta, tb := TimeOfDay(a), TimeOfDay(b);
    FieldOrder(a.day, b.day, 2, "T", ta, tb);
    var da, db := Pad(a.day, 2) + "T" + ta, Pad(b.day, 2) + "T" + tb;
    FieldOrder(a.month, b.month, 2, "-", da, db);
    FieldOrder(a.year, b.year, 4, "-", Pad(a.month, 2) + "-" + da, Pad(b.month, 2) + "-" + db);
  }

  /** A row is due, in SQL's comparison, exactly when its time is not after the present millisecond. */
  lemma DueTestIsFaithful(scheduled: Time, now: Time)
    requires scheduled.Valid() && now.Valid() && scheduled.year < 10000 && now.year < 10000
    ensures (Less(FormatTime(scheduled), FormatTime(now)) || FormatTime(scheduled) == FormatTime(now))
            <==> Millis(scheduled) <= Millis(now)
  {
    var s, n := FormatTime(scheduled), FormatTime(now);
    TextOrderIsTimeOrder(scheduled, now);
    TextOrderIsTimeOrder(now, scheduled);
    LessTotal(s, n);
    if Less(s, n) {
      LessAsymmetric(s, n);
    }
  }

  /** From the year 10000 on the text starts with a sign and sorts before every earlier time. */
  lemma FiveDigitYearsSortFirst(a: Time, b: Time)
    requires a.Valid() && b.Valid() && a.year < 10000 <= b.year
    ensures Less(FormatTime(b), FormatTime(a)) && Millis(a) < Millis(b)
  {
    Widths();
    DayOrder(a, b);
    MillisOrder(a, b);
    PadDigits(a.year, 4);
    assert FormatTime(a)[0] == Pad(a.year, 4)[0];
    assert FormatTime(b)[0] == '+';
  }

  lemma {:induction false} PadDigits(n: nat, w: nat)
    requires n < Pow10(w)
    ensures forall i :: 0 <= i < w ==> Pad(n, w)[i] >= '0'
    decreases w
  {
    if w > 0 {
      PadDigits(n / 10, w - 1);
    }
  }

  /** So the comparison with a present time is right if and only if the other year has four digits. */
  lemma FaithfulIffFourDigits(now: Time, other: Time)
    requires now.Valid() && other.Valid() && now.year < 10000
    ensures (Less(FormatTime(now), FormatTime(other)) <==> Millis(now) < Millis(other)) <==> other.year < 10000
  {
    if other.year < 10000 {
      TextOrderIsTimeOrder(now, other);
    } else {
      FiveDigitYearsSortFirst(now, other);
      LessAsymmetric(FormatTime(other), FormatTime(now));
    }
  }

  // ---- The sentinel --------------------------------------------------------

  const FAR_FUTURE := Time(9999, 12, 31, 23, 59, 59, 999_000_000)

  lemma PadTwo(n: nat)
    requires n < 100
    ensures n < Pow10(2) && Pad(n, 2) == [Digit(n / 10), Digit(n % 10)]
  {
    Widths();
    assert Pad(n / 10, 1) == Pad(0, 0) + [Digit(n / 10)];
  }

  lemma PadWider(n: nat, w: nat, s: string)
    requires w > 0 && n < Pow10(w) && Pad(n / 10, w - 1) == s
    ensures Pad(n, w) == s + [Digit(n % 10)]
  {
  }

  lemma FarFutureTimeOfDay()
    ensures FAR_FUTURE.Valid() && TimeOfDay(FAR_FUTURE) == "23:59:59.999"
  {
    PadTwo(23);
    PadTwo(59);
    PadTwo(99);
    Widths();
    PadWider(999, 3, "99");
    assert FAR_FUTURE.Millisecond() == 999;
  }

  lemma FarFutureText()
    ensures FAR_FUTURE.Valid() && FormatTime(FAR_FUTURE) == "9999-12-31T23:59:59.999"
  {
    FarFutureTimeOfDay();
    PadTwo(12);
    PadTwo(31);
    PadTwo(99);
    Widths();
    PadWider(999, 3, "99");
    PadWider(9999, 4, "999");
    FarFutureParts(Pad(9999, 4), Pad(12, 2), Pad(31, 2), TimeOfDay(FAR_FUTURE));
  }

  lemma FarFutureParts(y: string, m: string, d: string, time: string)
    requires y == "9999" && m == "12" && d == "31" && time == "23:59:59.999"
    ensures y + "-" + (m + "-" + (d + "T" + time)) == "9999-12-31T23:59:59.999"
  {
    assert d + "T" + time == "31T23:59:59.999";
    assert m + "-" + "31T23:59:59.999" == "12-31T23:59:59.999";
  }

  lemma LastMillisecond(t: Time)
    requires t.Valid() && t.year < 10000
    ensures FAR_FUTURE.Valid() && Millis(t) <= Millis(FAR_FUTURE)
  {
    assert FAR_FUTURE.Valid() && FAR_FUTURE.Millisecond() == 999;
    MillisOrder(FAR_FUTURE, t);
    DayOrder(FAR_FUTURE, t);
    assert t.Millisecond() <= 999;
  }

  /** A waiting callback's row: no time up to the end of the year 9999 makes it due, but its own last millisecond. */
  lemma FarFutureIsNotDue(now: Time)
    requires now.Valid() && now.year < 10000 && FAR_FUTURE.Valid()
    ensures Less(FormatTime(now), "9999-12-31T23:59:59.999") <==> Millis(now) != Millis(FAR_FUTURE)
    ensures !Less("9999-12-31T23:59:59.999", FormatTime(now))
  {
    FarFutureText();
    LastMillisecond(now);
    TextOrderIsTimeOrder(now, FAR_FUTURE);
    TextOrderIsTimeOrder(FAR_FUTURE, now);
  }
}
