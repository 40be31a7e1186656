/** Civil time in UTC, to the minute: the proleptic Gregorian calendar with an unbounded year. */
module Calendar {
  datatype Civil = Civil(year: int, month: int, day: int, hour: int, minute: int)

  predicate IsLeap(year: int) {
    year % 4 == 0 && (year % 100 != 0 || year % 400 == 0)
  }

  function MonthLength(year: int, month: int): int
    requires 1 <= month <= 12
  {
    if month == 2 && IsLeap(year) then 29 else [31, 28, 31, 30, 31, 30, 31, 31, 30, 31, 30, 31][month - 1]
  }

  predicate ValidDate(year: int, month: int, day: int) {
    1 <= month <= 12 && 1 <= day <= MonthLength(year, month)
  }

  predicate Valid(c: Civil) {
    ValidDate(c.year, c.month, c.day) && 0 <= c.hour < 24 && 0 <= c.minute < 60
  }

  // ----- Day and minute numbers -----

  function DaysBeforeYear(year: int): int {
    365 * (year - 1) + (year - 1) / 4 - (year - 1) / 100 + (year - 1) / 400
  }

  function DaysBeforeMonth(year: int, month: int): int
    requires 1 <= month <= 12
  {
    [0, 31, 59, 90, 120, 151, 181, 212, 243, 273, 304, 334][month - 1] + if month > 2 && IsLeap(year) then 1 else 0
  }

  /** `date.toordinal`: 1 January of year 1 is day 1. */
  function Ordinal(year: int, month: int, day: int): int
    requires 1 <= month <= 12
  {
    DaysBeforeYear(year) + DaysBeforeMonth(year, month) + day
  }

  /** `date.weekday`: Monday is 0. */
  function Weekday(year: int, month: int, day: int): int
    requires 1 <= month <= 12
  {
    (Ordinal(year, month, day) + 6) % 7
  }

  function Minutes(c: Civil): int
    requires Valid(c)
  {
    Ordinal(c.year, c.month, c.day) * 1440 + c.hour * 60 + c.minute
  }

  /** One minute later. */
  function Tick(c: Civil): Civil
    requires Valid(c)
  {
    if c.minute < 59 then c.(minute := c.minute + 1)
    else if c.hour < 23 then c.(hour := c.hour + 1, minute := 0)
    else if c.day < MonthLength(c.year, c.month) then Civil(c.year, c.month, c.day + 1, 0, 0)
    else if c.month < 12 then Civil(c.year, c.month + 1, 1, 0, 0)
    else Civil(c.year + 1, 1, 1, 0, 0)
  }

  predicate Precedes(a: Civil, b: Civil) {
    a.year < b.year ||
    (a.year == b.year && (a.month < b.month ||
    (a.month == b.month && (a.day < b.day ||
    (a.day == b.day && (a.hour < b.hour ||
    (a.hour == b.hour && a.minute < b.minute)))))))
  }

  // ----- Counting minutes is exact -----

  lemma NextQuotient(a: int, k: int)
    requires k > 1
    ensures a / k == (a - 1) / k + if a % k == 0 then 1 else 0
  {
    var q, r := a / k, a % k;
    var before := if r == 0 then q - 1 else q;
    assert a - 1 == before * k + (if r == 0 then k - 1 else r - 1);
    QuotientIs(a - 1, k, before);
  }

  lemma QuotientIs(a: int, k: int, q: int)
    requires k > 0 && q * k <= a < q * k + k
    ensures a / k == q
  {
    Multiple(a / k - q, k);
    assert a == (a / k) * k + a % k;
    assert (a / k - q) * k == (a / k) * k - q * k;
  }

  lemma Multiple(d: int, k: int)
    requires k > 0
    ensures d >= 1 ==> d * k >= k
    ensures d <= -1 ==> d * k <= -k
  {
  }

  lemma NextYear(year: int)
    ensures DaysBeforeYear(year + 1) == DaysBeforeYear(year) + 365 + if IsLeap(year) then 1 else 0
  {
    NextQuotient(year, 4);
    NextQuotient(year, 100);
    NextQuotient(year, 400);
    assert year % 400 == 0 ==> year % 100 == 0 by { Divides(year, 100, 4); }
    assert year % 100 == 0 ==> year % 4 == 0 by { Divides(year, 4, 25); }
  }

  lemma Divides(a: int, k: int, factor: int)
    requires k > 0 && factor > 0
    ensures a % (k * factor) == 0 ==> a % k == 0
  {
    if a % (k * factor) == 0 {
      var q := a / (k * factor);
      assert a == (q * factor) * k by {
        assert (k * factor) * q == (q * factor) * k;
      }
      QuotientIs(a, k, q * factor);
    }
  }

  lemma {:induction false} LaterYear(a: int, b: int)
    requires a < b
    ensures DaysBeforeYear(b) >= DaysBeforeYear(a + 1) + 365 * (b - a - 1)
    decreases b - a
  {
    hide DaysBeforeYear;
    if a + 1 < b {
      LaterYear(a, b - 1);
      NextYear(b - 1);
    }
  }

  lemma NextMonth(year: int, month: int)
    requires 1 <= month < 12
    ensures DaysBeforeMonth(year, month + 1) == DaysBeforeMonth(year, month) + MonthLength(year, month)
  {
  }

  lemma DayOfYear(year: int, month: int, day: int)
    requires ValidDate(year, month, day)
    ensures 1 <= DaysBeforeMonth(year, month) + day <= 365 + if IsLeap(year) then 1 else 0
  {
  }

  lemma LaterMonth(year: int, a: int, b: int)
    requires 1 <= a < b <= 12
    ensures DaysBeforeMonth(year, a) + MonthLength(year, a) <= DaysBeforeMonth(year, b)
  {
  }

  lemma LaterDate(a: Civil, b: Civil)
    requires Valid(a) && Valid(b) && Precedes(a, b)
    ensures Ordinal(a.year, a.month, a.day) < Ordinal(b.year, b.month, b.day)
         || (a.year == b.year && a.month == b.month && a.day == b.day)
  {
    hide DaysBeforeYear, DaysBeforeMonth, MonthLength;
    if a.year < b.year {
      LaterYear(a.year, b.year);
      NextYear(a.year);
      DayOfYear(a.year, a.month, a.day);
      DayOfYear(b.year, b.month, b.day);
    } else if a.month < b.month {
      LaterMonth(a.year, a.month, b.month);
    }
  }

  /** The order of civil times is the order of their minute numbers, and a minute number names one time. */
  lemma PrecedesIffFewerMinutes(a: Civil, b: Civil)
    requires Valid(a) && Valid(b)
    ensures Precedes(a, b) <==> Minutes(a) < Minutes(b)
    ensures Minutes(a) == Minutes(b) ==> a == b
  {
    hide Ordinal, MonthLength;
    if Precedes(a, b) {
      LaterDate(a, b);
    } else if Precedes(b, a) {
      LaterDate(b, a);
    }
  }

  lemma TickIsOneMinute(c: Civil)
    requires Valid(c)
    ensures Valid(Tick(c)) && Minutes(Tick(c)) == Minutes(c) + 1
  {
    hide DaysBeforeYear;
    if c.month < 12 {
      NextMonth(c.year, c.month);
    } else {
      NextYear(c.year);
    }
  }

  /** Weekdays follow each other from day to day, and 1 January 1970 was a Thursday. */
  lemma WeekdaysFollow(c: Civil)
    requires Valid(c)
    ensures var next := Tick(c);
            Weekday(next.year, next.month, next.day) ==
              if c.hour == 23 && c.minute == 59 then (Weekday(c.year, c.month, c.day) + 1) % 7 else Weekday(c.year, c.month, c.day)
    ensures 0 <= Weekday(c.year, c.month, c.day) < 7 && Weekday(1970, 1, 1) == 3
  {
    hide Ordinal;
    TickIsOneMinute(c);
    assert Ordinal(1970, 1, 1) == 719163 by {
      FirstOf1970();
    }
  }

  lemma FirstOf1970()
    ensures Ordinal(1970, 1, 1) == 719163
  {
  }

  /** Among the first seven days of a month there is one of every weekday. */
  lemma EveryWeekday(year: int, month: int, weekday: int) returns (day: int)
    requires 1 <= month <= 12 && 0 <= weekday < 7
    ensures 1 <= day <= 7 && ValidDate(year, month, day) && Weekday(year, month, day) == weekday
  {
    var first := Ordinal(year, month, 1);
    hide DaysBeforeYear, DaysBeforeMonth;
    day := 1 + (weekday - (first + 6)) % 7;
    StepsToResidue(first + 6, weekday);
  }

  lemma StepsToResidue(x: int, r: int)
    requires 0 <= r < 7
    ensures (x + (r - x) % 7) % 7 == r
  {
  }
}
