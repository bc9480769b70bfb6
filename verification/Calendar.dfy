/** Civil dates: the closed form of the timestamp formatter against the Gregorian calendar
    walked one day at a time. */
module Calendar {

  datatype Date = Date(year: int, month: int, day: int)

  predicate Leap(y: int) { y % 4 == 0 && (y % 100 != 0 || y % 400 == 0) }

  function DaysInMonth(y: int, m: int): int {
    if m == 2 then (if Leap(y) then 29 else 28)
    else if m == 4 || m == 6 || m == 9 || m == 11 then 30
    else 31
  }

  predicate ValidDate(d: Date) { 1 <= d.month <= 12 && 1 <= d.day <= DaysInMonth(d.year, d.month) }

  function NextDay(d: Date): Date {
    if d.day < DaysInMonth(d.year, d.month) then d.(day := d.day + 1)
    else if d.month < 12 then Date(d.year, d.month + 1, 1)
    else Date(d.year + 1, 1, 1)
  }

  /** The date reached by stepping `n` days from 1970-01-01. */
  function DateAfter(n: nat): Date {
    if n == 0 then Date(1970, 1, 1) else NextDay(DateAfter(n - 1))
  }

  // ----- The closed form -----

  const ERA: int := 146097

  function YearOfEra(doe: int): int { (doe - doe / 1460 + doe / 36524 - doe / 146096) / 365 }

  /** Days of an era before its year `yoe`, counting years from March. */
  function YearStart(yoe: int): int { 365 * yoe + yoe / 4 - yoe / 100 }

  function MonthPrime(doy: int): int { (5 * doy + 2) / 153 }

  function MonthStart(mp: int): int { (153 * mp + 2) / 5 }

  function CivilFromDays(days: nat): Date {
    var shifted := days + 719468;
    var era := shifted / ERA;
    var doe := shifted - era * ERA;
    var yoe := YearOfEra(doe);
    var doy := doe - YearStart(yoe);
    var mp := MonthPrime(doy);
    var day := doy - MonthStart(mp) + 1;
    var month := mp + if mp < 10 then 3 else -9;
    Date(yoe + era * 400 + (if month <= 2 then 1 else 0), month, day)
  }

  // ----- Years of an era -----

  /** A year that starts in March is long when the February that ends it is. */
  function YearLength(yoe: int): int { if Leap(yoe + 1) then 366 else 365 }

  ghost predicate InYear(yoe: int, doy: int) { 0 <= yoe < 400 && 0 <= doy < YearLength(yoe) }

  lemma {:induction false} YearStartStep(yoe: int)
    requires 0 <= yoe < 399
    ensures YearStart(yoe + 1) == YearStart(yoe) + YearLength(yoe)
  {
    var y := yoe + 1;
    assert y / 4 == yoe / 4 + if y % 4 == 0 then 1 else 0;
    assert y / 100 == yoe / 100 + if y % 100 == 0 then 1 else 0;
  }

  lemma {:induction false} YearStartMonotone(a: int, b: int)
    requires 0 <= a < b < 400
    ensures YearStart(a) + YearLength(a) <= YearStart(b)
    decreases b - a
  {
    YearStartStep(a);
    if a + 1 < b {
      YearStartMonotone(a + 1, b);
    }
  }

  /** The year-of-era formula finds the year that holds the day. */
  lemma {:induction false} DayOfEraSplits(doe: int)
    requires 0 <= doe < ERA
    ensures InYear(YearOfEra(doe), doe - YearStart(YearOfEra(doe)))
  {
    var c := if doe == 146096 then 3 else doe / 36524;
    var r := doe - 36524 * c;
    assert 0 <= c <= 3 && 0 <= r <= 36524 && (r == 36524 ==> c == 3);
    var k := if r == 36524 then 24 else r / 1461;
    var s := r - 1461 * k;
    assert 0 <= k <= 24 && 0 <= s <= 1460;
    YearInCycle(doe, c, k, s);
  }

  /** Century `c` of the era, four-year cycle `k` of the century, year `j` and day `s` of the
      cycle; `t` is one where the 1460-day quotient runs ahead of the cycles. */
  lemma {:induction false} YearInCycle(doe: int, c: int, k: int, s: int)
    requires 0 <= c <= 3 && 0 <= k <= 24 && 0 <= s <= 1460
    requires doe == 36524 * c + 1461 * k + s && (k == 24 ==> s <= 1459 || c == 3)
    ensures InYear(YearOfEra(doe), doe - YearStart(YearOfEra(doe)))
  {
    var t := if 24 * c + k + s >= 1460 then 1 else 0;
    var j := if s - t < 365 then 0 else if s - t < 730 then 1 else if s - t < 1095 then 2 else 3;
    var yoe := 100 * c + 4 * k + j;
    EraQuotients(doe, c, k, s, t);
    Quotient(36500 * c + 1460 * k + s - t, 365, yoe);
    CycleStart(c, k, j);
    if s - 365 * j == 365 {
      LastDayIsLeap(c, k);
    }
  }

  lemma {:induction false} EraQuotients(doe: int, c: int, k: int, s: int, t: int)
    requires 0 <= c <= 3 && 0 <= k <= 24 && 0 <= s <= 1460
    requires doe == 36524 * c + 1461 * k + s && (k == 24 ==> s <= 1459 || c == 3)
    requires t == if 24 * c + k + s >= 1460 then 1 else 0
    ensures doe - doe / 1460 + doe / 36524 - doe / 146096 == 36500 * c + 1460 * k + s - t
  {
    var e := if doe == 146096 then 1 else 0;
    Quotient(doe, 1460, 25 * c + k + t);
    Quotient(doe, 36524, c + e);
    Quotient(doe, 146096, e);
  }

  lemma {:induction false} CycleStart(c: int, k: int, j: int)
    requires 0 <= c <= 3 && 0 <= k <= 24 && 0 <= j <= 3
    ensures YearStart(100 * c + 4 * k + j) == 36524 * c + 1461 * k + 365 * j
  {
    var yoe := 100 * c + 4 * k + j;
    Quotient(yoe, 4, 25 * c + k);
    Quotient(yoe, 100, c);
  }

  lemma {:induction false} LastDayIsLeap(c: int, k: int)
    requires 0 <= c <= 3 && 0 <= k <= 24 && (k == 24 ==> c == 3)
    ensures Leap(100 * c + 4 * k + 3 + 1)
  {
    if k < 24 {
      Quotient(100 * c + 4 * k + 4, 100, c);
    }
  }

  lemma {:induction false} Quotient(n: int, d: int, q: int)
    requires d > 0 && q * d <= n < q * d + d
    ensures n / d == q
  {
    var x := n / d - q;
    assert x * d == (n / d) * d - q * d;
    MulAtLeast(x, d);
  }

  lemma {:induction false} MulAtLeast(x: int, d: int)
    requires d > 0
    ensures x >= 1 ==> x * d >= d
    ensures x <= -1 ==> x * d <= -d
  {
    assert x >= 1 ==> (x - 1) * d >= 0;
    assert x <= -1 ==> (-1 - x) * d >= 0;
  }

  lemma {:induction false} YearUnique(y1: int, d1: int, y2: int, d2: int)
    requires InYear(y1, d1) && InYear(y2, d2) && YearStart(y1) + d1 == YearStart(y2) + d2
    ensures y1 == y2 && d1 == d2
  {
    if y1 < y2 { YearStartMonotone(y1, y2); }
    if y2 < y1 { YearStartMonotone(y2, y1); }
  }

  // ----- Months of a year -----

  /** The length of month `mp` of a year that starts in March. */
  function MonthLength(yoe: int, mp: int): int {
    if mp == 11 then (if Leap(yoe + 1) then 29 else 28)
    else if mp == 1 || mp == 3 || mp == 6 || mp == 8 then 30
    else 31
  }

  lemma {:induction false} MonthStarts(mp: int)
    requires 0 <= mp <= 10
    ensures MonthStart(mp + 1) == MonthStart(mp) + if mp == 1 || mp == 3 || mp == 6 || mp == 8 then 30 else 31
    ensures MonthStart(0) == 0 && MonthStart(11) == 337 && 0 <= MonthStart(mp) <= 306
  {
    assert mp == 0 || mp == 1 || mp == 2 || mp == 3 || mp == 4 || mp == 5 || mp == 6 || mp == 7 || mp == 8 || mp == 9 || mp == 10;
  }

  /** The month formula finds the month that holds the day. */
  lemma {:induction false} MonthUnique(doy: int, mp: int, dom: int)
    requires 0 <= mp <= 11 && 1 <= dom && if mp < 11 then MonthStart(mp) + dom <= MonthStart(mp + 1) else dom <= 29
    requires doy == MonthStart(mp) + dom - 1
    ensures MonthPrime(doy) == mp
  {
    assert 5 * MonthStart(mp) >= 153 * mp - 2;
    Quotient(5 * doy + 2, 153, mp);
  }

  // ----- Walking the calendar -----

  function DateBy(era: int, yoe: int, mp: int, dom: int): Date {
    Date(yoe + era * 400 + (if mp < 10 then 0 else 1), if mp < 10 then mp + 3 else mp - 9, dom)
  }

  ghost predicate Position(era: int, yoe: int, mp: int, dom: int) {
    0 <= yoe < 400 && 0 <= mp <= 11 && 1 <= dom <= MonthLength(yoe, mp)
  }

  /** The day number, counted from the start of the shifted calendar. */
  function DayNumber(era: int, yoe: int, mp: int, dom: int): int {
    era * ERA + YearStart(yoe) + MonthStart(mp) + dom - 1
  }

  lemma {:induction false} LeapPeriod(y: int, era: int)
    ensures Leap(y + era * 400) == Leap(y)
  {
    Quotient(y + era * 400, 4, y / 4 + 100 * era);
    Quotient(y + era * 400, 100, y / 100 + 4 * era);
    Quotient(y + era * 400, 400, y / 400 + era);
  }

  lemma {:induction false} LengthsAgree(era: int, yoe: int, mp: int, dom: int)
    requires Position(era, yoe, mp, dom)
    ensures var d := DateBy(era, yoe, mp, dom); DaysInMonth(d.year, d.month) == MonthLength(yoe, mp) && ValidDate(d)
  {
    if mp == 11 {
      LeapPeriod(yoe + 1, era);
    }
  }

  /** The position of the day after. */
  function NextPosition(era: int, yoe: int, mp: int, dom: int): (int, int, int, int) {
    if dom < MonthLength(yoe, mp) then (era, yoe, mp, dom + 1)
    else if mp < 11 then (era, yoe, mp + 1, 1)
    else if yoe < 399 then (era, yoe + 1, 0, 1)
    else (era + 1, 0, 0, 1)
  }

  lemma {:induction false} StepPosition(era: int, yoe: int, mp: int, dom: int)
    requires Position(era, yoe, mp, dom)
    ensures var (e, y, m, d) := NextPosition(era, yoe, mp, dom);
            && Position(e, y, m, d) && DateBy(e, y, m, d) == NextDay(DateBy(era, yoe, mp, dom))
            && DayNumber(e, y, m, d) == DayNumber(era, yoe, mp, dom) + 1
  {
    LengthsAgree(era, yoe, mp, dom);
    if dom == MonthLength(yoe, mp) {
      if mp < 11 {
        MonthStarts(mp);
      } else {
        MonthStarts(0);
        if yoe < 399 {
          YearStartStep(yoe);
        }
      }
    }
  }

  /** Every day of the walk sits at a position with its own day number. */
  lemma {:induction false} Walk(n: nat) returns (era: int, yoe: int, mp: int, dom: int)
    ensures Position(era, yoe, mp, dom) && DateAfter(n) == DateBy(era, yoe, mp, dom)
    ensures DayNumber(era, yoe, mp, dom) == n + 719468
  {
    if n == 0 {
      era, yoe, mp, dom := 4, 369, 10, 1;
    } else {
      era, yoe, mp, dom := Walk(n - 1);
      StepPosition(era, yoe, mp, dom);
      var (e, y, m, d) := NextPosition(era, yoe, mp, dom);
      era, yoe, mp, dom := e, y, m, d;
    }
  }

  lemma {:induction false} PositionInYear(era: int, yoe: int, mp: int, dom: int)
    requires Position(era, yoe, mp, dom)
    ensures InYear(yoe, MonthStart(mp) + dom - 1)
    ensures 0 <= YearStart(yoe) + MonthStart(mp) + dom - 1 < ERA
    ensures mp < 11 ==> MonthStart(mp) + dom <= MonthStart(mp + 1)
  {
    MonthStarts(if mp < 11 then mp else 0);
    if yoe < 399 {
      YearStartMonotone(yoe, 399);
    }
  }

  /** The closed form is the calendar, for every day. */
  lemma {:induction false} CivilIsCalendar(n: nat)
    ensures CivilFromDays(n) == DateAfter(n) && ValidDate(DateAfter(n))
  {
    var era, yoe, mp, dom := Walk(n);
    LengthsAgree(era, yoe, mp, dom);
    ClosedFormAt(n, era, yoe, mp, dom);
  }

  lemma {:induction false} ClosedFormAt(n: nat, era: int, yoe: int, mp: int, dom: int)
    requires Position(era, yoe, mp, dom) && DayNumber(era, yoe, mp, dom) == n + 719468
    ensures CivilFromDays(n) == DateBy(era, yoe, mp, dom)
  {
    ClosedFormParts(n, era, yoe, mp, dom);
  }

  lemma {:induction false} ClosedFormParts(n: nat, era: int, yoe: int, mp: int, dom: int)
    requires Position(era, yoe, mp, dom) && DayNumber(era, yoe, mp, dom) == n + 719468
    ensures (n + 719468) / ERA == era && YearOfEra(n + 719468 - era * ERA) == yoe
    ensures MonthPrime(n + 719468 - era * ERA - YearStart(yoe)) == mp
  {
    PositionInYear(era, yoe, mp, dom);
    var doe, doy := YearStart(yoe) + MonthStart(mp) + dom - 1, MonthStart(mp) + dom - 1;
    Quotient(n + 719468, ERA, era);
    DayOfEraSplits(doe);
    YearUnique(yoe, doy, YearOfEra(doe), doe - YearStart(YearOfEra(doe)));
    MonthUnique(doy, mp, dom);
  }

  /** 146097 days are exactly 400 years. */
  lemma {:induction false} EraPeriod(n: nat)
    ensures DateAfter(n + 146097) == DateAfter(n).(year := DateAfter(n).year + 400)
  {
    var era, yoe, mp, dom := Walk(n);
    ClosedFormAt(n + 146097, era + 1, yoe, mp, dom);
    CivilIsCalendar(n + 146097);
  }

  // ----- Order -----

  predicate Earlier(a: Date, b: Date) {
    a.year < b.year || (a.year == b.year && (a.month < b.month || (a.month == b.month && a.day < b.day)))
  }

  /** Later days have later dates. */
  lemma {:induction false} LaterDaysLaterDates(m: nat, n: nat)
    requires m < n
    ensures Earlier(DateAfter(m), DateAfter(n))
    decreases n - m
  {
    if m < n - 1 {
      LaterDaysLaterDates(m, n - 1);
    }
  }
}
