/** The UTC timestamp text recorded in provenance manifests. */
module Timestamp {
  import opened Calendar
  import opened Text

  /** The first second of year 10000. */
  const YEAR_10000: int := 253402300800

  function DateText(d: Date): string
    requires d.year >= 0 && d.month >= 0 && d.day >= 0
  {
    Padded(d.year, 4) + ("-" + (Padded(d.month, 2) + ("-" + Padded(d.day, 2))))
  }

  function TimeText(r: nat): string {
    Padded(r / 3600, 2) + (":" + (Padded(r % 3600 / 60, 2) + (":" + Padded(r % 60, 2))))
  }

  function FormatUtc(seconds: nat): string {
    DateIsNatural(seconds / 86400);
    DateText(CivilFromDays(seconds / 86400)) + ("T" + (TimeText(seconds % 86400) + "Z"))
  }

  // ----- The calendar range -----

  lemma {:induction false} DateRange(n: nat)
    ensures ValidDate(DateAfter(n)) && DateAfter(n).year >= 1970 && DateAfter(n).day <= 31
  {
    CivilIsCalendar(n);
    if n > 0 { LaterDaysLaterDates(0, n); }
  }

  lemma {:induction false} DateIsNatural(n: nat)
    ensures var d := CivilFromDays(n); d == DateAfter(n) && ValidDate(d) && d.year >= 1970
  {
    CivilIsCalendar(n);
    DateRange(n);
  }

  /** The year has four digits exactly before the first second of year 10000. */
  lemma {:induction false} FourDigitYears(n: nat)
    ensures DateAfter(n).year < 10000 <==> n * 86400 < YEAR_10000
  {
    LastFourDigitDay();
    if n > 2932896 {
      if n > 2932897 { LaterDaysLaterDates(2932897, n); }
    } else if n < 2932896 {
      LaterDaysLaterDates(n, 2932896);
    }
  }

  lemma {:induction false} LastFourDigitDay()
    ensures DateAfter(2932896) == Date(9999, 12, 31) && DateAfter(2932897) == Date(10000, 1, 1)
  {
    ClosedFormAt(2932896, 24, 399, 9, 31);
    CivilIsCalendar(2932896);
    ClosedFormAt(2932897, 24, 399, 10, 1);
    CivilIsCalendar(2932897);
  }

  // ----- Shape -----

  ghost predicate Printable(d: Date) { 0 <= d.year < 10000 && 1 <= d.month <= 12 && 1 <= d.day <= 31 }

  lemma {:induction false} DateTextWidth(d: Date)
    requires d.year >= 0 && 1 <= d.month <= 12 && 1 <= d.day <= 31
    ensures |Padded(d.month, 2)| == 2 && |Padded(d.day, 2)| == 2
    ensures if d.year < 10000 then |Padded(d.year, 4)| == 4 && |DateText(d)| == 10 else |DateText(d)| > 10
  {
    assert Pow10(2) == 100 && Pow10(4) == 10000 by { assert Pow10(1) == 10 && Pow10(3) == 1000; }
    PaddedWidth(d.year, 4);
    PaddedWidth(d.month, 2);
    PaddedWidth(d.day, 2);
  }

  lemma {:induction false} TimeTextWidth(r: nat)
    requires r < 86400
    ensures |Padded(r / 3600, 2)| == 2 && |Padded(r % 3600 / 60, 2)| == 2 && |TimeText(r)| == 8
  {
    assert Pow10(2) == 100 by { assert Pow10(1) == 10; }
    PaddedWidth(r / 3600, 2);
    PaddedWidth(r % 3600 / 60, 2);
    PaddedWidth(r % 60, 2);
  }

  ghost predicate Ascii(s: string) { forall i :: 0 <= i < |s| ==> (s[i] as int) < 128 }

  lemma {:induction false} PaddedAscii(n: nat, width: nat)
    ensures Ascii(Padded(n, width))
  {
    PaddedReadsBack(n, width);
    assert forall i :: 0 <= i < |Padded(n, width)| ==> IsDigit(Padded(n, width)[i]);
  }

  ghost predicate Shaped(t: string, seconds: nat) {
    Ascii(t) && t != "" && t[|t| - 1] == 'Z' && (|t| == 20 <==> seconds < YEAR_10000)
  }

  /** The text is always ASCII and ends in `Z`; it has 20 characters exactly before year 10000. */
  lemma {:induction false} TimestampShape(seconds: nat)
    ensures Shaped(FormatUtc(seconds), seconds)
  {
    DateIsNatural(seconds / 86400);
    ShapeFrom(seconds, seconds / 86400, seconds % 86400);
  }

  lemma {:induction false} ShapeFrom(seconds: nat, n: nat, r: nat)
    requires seconds == n * 86400 + r && r < 86400
    ensures var d := DateAfter(n); d.year >= 0 && d.month >= 0 && d.day >= 0
    ensures Shaped(DateText(DateAfter(n)) + ("T" + (TimeText(r) + "Z")), seconds)
  {
    DateRange(n);
    FourDigitYears(n);
    SameDay(seconds, n, r);
    DateTextShape(DateAfter(n));
    TimeTextShape(r);
    Framed(DateText(DateAfter(n)), TimeText(r));
  }

  lemma {:induction false} SameDay(seconds: nat, n: nat, r: nat)
    requires seconds == n * 86400 + r && r < 86400
    ensures n * 86400 < YEAR_10000 <==> seconds < YEAR_10000
  {
  }

  lemma {:induction false} DateTextShape(d: Date)
    requires d.year >= 0 && 1 <= d.month <= 12 && 1 <= d.day <= 31
    ensures Ascii(DateText(d)) && |DateText(d)| >= 10 && (|DateText(d)| == 10 <==> d.year < 10000)
  {
    DateTextWidth(d);
    PaddedAscii(d.year, 4);
    PaddedAscii(d.month, 2);
    PaddedAscii(d.day, 2);
  }

  lemma {:induction false} TimeTextShape(r: nat)
    requires r < 86400
    ensures Ascii(TimeText(r)) && |TimeText(r)| == 8
  {
    TimeTextWidth(r);
    PaddedAscii(r / 3600, 2);
    PaddedAscii(r % 3600 / 60, 2);
    PaddedAscii(r % 60, 2);
  }

  lemma {:induction false} Framed(date: string, time: string)
    requires Ascii(date) && Ascii(time)
    ensures var t := date + ("T" + (time + "Z")); Ascii(t) && t[|t| - 1] == 'Z' && |t| == |date| + |time| + 2
  {
  }

  // ----- Reading back -----

  /** A date and time of day as texts, in the layout of RFC 3339, section 5.6. */
  ghost predicate LaidOut(t: string, year: string, month: string, day: string, hour: string, minute: string, second: string) {
    var n := |year|;
    && |t| == n + 16 && t[..n] == year && t[n + 1..n + 3] == month && t[n + 4..n + 6] == day
    && t[n + 7..n + 9] == hour && t[n + 10..n + 12] == minute && t[n + 13..n + 15] == second
    && t[n] == '-' && t[n + 3] == '-' && t[n + 6] == 'T' && t[n + 9] == ':' && t[n + 12] == ':' && t[n + 15] == 'Z'
  }

  lemma {:induction false} JoinedIsLaidOut(year: string, month: string, day: string, hour: string, minute: string, second: string)
    requires |month| == |day| == |hour| == |minute| == |second| == 2
    ensures LaidOut((year + ("-" + (month + ("-" + day)))) + ("T" + ((hour + (":" + (minute + (":" + second)))) + "Z")),
                    year, month, day, hour, minute, second)
  {
  }

  /** The text of a second reads back as the calendar day that counting days from 1970-01-01
      reaches, and as the time of that day. */
  lemma {:induction false} TimestampReads(seconds: nat) returns (year: string, month: string, day: string, hour: string,
                                                                 minute: string, second: string)
    ensures LaidOut(FormatUtc(seconds), year, month, day, hour, minute, second)
    ensures |year| == 4 <==> seconds < YEAR_10000
    ensures AllDigits(year) && AllDigits(month) && AllDigits(day)
    ensures Date(Value(year), Value(month), Value(day)) == DateAfter(seconds / 86400)
    ensures AllDigits(hour) && AllDigits(minute) && AllDigits(second)
    ensures Value(hour) < 24 && Value(minute) < 60 && Value(second) < 60
    ensures 3600 * Value(hour) + 60 * Value(minute) + Value(second) == seconds % 86400
  {
    var d, r := DateAfter(seconds / 86400), seconds % 86400;
    DateIsNatural(seconds / 86400);
    DateRange(seconds / 86400);
    year, month, day := DateReads(d);
    hour, minute, second := TimeReads(r);
    JoinedIsLaidOut(year, month, day, hour, minute, second);
    TimestampShape(seconds);
  }

  lemma {:induction false} DateReads(d: Date) returns (year: string, month: string, day: string)
    requires d.year >= 0 && 1 <= d.month <= 12 && 1 <= d.day <= 31
    ensures DateText(d) == year + ("-" + (month + ("-" + day))) && |month| == |day| == 2
    ensures AllDigits(year) && AllDigits(month) && AllDigits(day)
    ensures Date(Value(year), Value(month), Value(day)) == d
  {
    year, month, day := Padded(d.year, 4), Padded(d.month, 2), Padded(d.day, 2);
    DateTextWidth(d);
    PaddedReadsBack(d.year, 4);
    PaddedReadsBack(d.month, 2);
    PaddedReadsBack(d.day, 2);
  }

  lemma {:induction false} TimeReads(r: nat) returns (hour: string, minute: string, second: string)
    requires r < 86400
    ensures TimeText(r) == hour + (":" + (minute + (":" + second))) && |hour| == |minute| == |second| == 2
    ensures AllDigits(hour) && AllDigits(minute) && AllDigits(second)
    ensures Value(hour) < 24 && Value(minute) < 60 && Value(second) < 60
    ensures 3600 * Value(hour) + 60 * Value(minute) + Value(second) == r
  {
    hour, minute, second := Padded(r / 3600, 2), Padded(r % 3600 / 60, 2), Padded(r % 60, 2);
    PaddedReadsBack(r / 3600, 2);
    PaddedReadsBack(r % 3600 / 60, 2);
    PaddedReadsBack(r % 60, 2);
    TimeTextWidth(r);
    assert r % 3600 % 60 == r % 60;
  }

  /** The same, slice by slice, for years of four digits. */
  lemma {:induction false} TimestampSlices(seconds: nat)
    requires seconds < YEAR_10000
    ensures var t := FormatUtc(seconds);
            && |t| == 20 && t[4] == '-' && t[7] == '-' && t[10] == 'T' && t[13] == ':' && t[16] == ':' && t[19] == 'Z'
            && AllDigits(t[..4]) && AllDigits(t[5..7]) && AllDigits(t[8..10])
            && AllDigits(t[11..13]) && AllDigits(t[14..16]) && AllDigits(t[17..19])
            && Date(Value(t[..4]), Value(t[5..7]), Value(t[8..10])) == DateAfter(seconds / 86400)
            && Value(t[11..13]) < 24 && Value(t[14..16]) < 60 && Value(t[17..19]) < 60
            && 3600 * Value(t[11..13]) + 60 * Value(t[14..16]) + Value(t[17..19]) == seconds % 86400
  {
    var year, month, day, hour, minute, second := TimestampReads(seconds);
  }

  // ----- Order -----

  lemma {:induction false} DateTextOrder(a: Date, b: Date)
    requires Printable(a) && Printable(b) && Earlier(a, b)
    ensures Less(DateText(a), DateText(b))
  {
    assert Pow10(2) == 100 && Pow10(4) == 10000 by { assert Pow10(1) == 10 && Pow10(3) == 1000; }
    DateTextWidth(a);
    DateTextWidth(b);
    if a.year < b.year {
      PaddedOrder(a.year, b.year, 4);
      LessBefore(Padded(a.year, 4), Padded(b.year, 4), "-" + (Padded(a.month, 2) + ("-" + Padded(a.day, 2))),
                 "-" + (Padded(b.month, 2) + ("-" + Padded(b.day, 2))));
    } else {
      PairOrder(a.month, a.day, b.month, b.day, "-");
      LessAfter("-", Padded(a.month, 2) + ("-" + Padded(a.day, 2)), Padded(b.month, 2) + ("-" + Padded(b.day, 2)));
      LessAfter(Padded(a.year, 4), "-" + (Padded(a.month, 2) + ("-" + Padded(a.day, 2))),
                "-" + (Padded(b.month, 2) + ("-" + Padded(b.day, 2))));
    }
  }

  /** Two two-digit numbers with a separator compare like the pair. */
  lemma {:induction false} PairOrder(x: nat, y: nat, u: nat, v: nat, sep: string)
    requires x < 100 && y < 100 && u < 100 && v < 100 && (x < u || (x == u && y < v))
    ensures Less(Padded(x, 2) + (sep + Padded(y, 2)), Padded(u, 2) + (sep + Padded(v, 2)))
  {
    assert Pow10(2) == 100 by { assert Pow10(1) == 10; }
    PaddedWidth(x, 2);
    PaddedWidth(u, 2);
    if x < u {
      PaddedOrder(x, u, 2);
      LessBefore(Padded(x, 2), Padded(u, 2), sep + Padded(y, 2), sep + Padded(v, 2));
    } else {
      PaddedOrder(y, v, 2);
      LessAfter(sep, Padded(y, 2), Padded(v, 2));
      LessAfter(Padded(x, 2), sep + Padded(y, 2), sep + Padded(v, 2));
    }
  }

  lemma {:induction false} TimeTextOrder(a: nat, b: nat)
    requires a < b < 86400
    ensures Less(TimeText(a), TimeText(b))
  {
    TimeTextWidth(a);
    TimeTextWidth(b);
    var ah, bh, am, bm := a / 3600, b / 3600, a % 3600 / 60, b % 3600 / 60;
    var at, bt := Padded(am, 2) + (":" + Padded(a % 60, 2)), Padded(bm, 2) + (":" + Padded(b % 60, 2));
    if ah < bh {
      assert Pow10(2) == 100 by { assert Pow10(1) == 10; }
      PaddedOrder(ah, bh, 2);
      LessBefore(Padded(ah, 2), Padded(bh, 2), ":" + at, ":" + bt);
    } else {
      ClockOrder(a, b);
      PairOrder(am, a % 60, bm, b % 60, ":");
      LessAfter(":", at, bt);
      LessAfter(Padded(ah, 2), ":" + at, ":" + bt);
    }
  }

  lemma {:induction false} ClockOrder(a: nat, b: nat)
    requires a < b < 86400 && a / 3600 >= b / 3600
    ensures a / 3600 == b / 3600
    ensures a % 3600 / 60 < b % 3600 / 60 || (a % 3600 / 60 == b % 3600 / 60 && a % 60 < b % 60)
  {
    var x, y := a % 3600, b % 3600;
    assert a / 3600 == b / 3600 && x < y;
    assert x % 60 == a % 60 && y % 60 == b % 60;
  }

  /** Before year 10000, timestamps sort as the times they stand for. */
  lemma {:induction false} TimestampOrder(s: nat, t: nat)
    requires s < YEAR_10000 && t < YEAR_10000
    ensures Less(FormatUtc(s), FormatUtc(t)) <==> s < t
  {
    if s < t {
      LaterIsLess(s, t);
    } else if s == t {
      LessIrreflexive(FormatUtc(s));
    } else {
      LaterIsLess(t, s);
      if Less(FormatUtc(s), FormatUtc(t)) {
        LessTransitive(FormatUtc(s), FormatUtc(t), FormatUtc(s));
        LessIrreflexive(FormatUtc(s));
      }
    }
  }

  lemma {:induction false} LaterIsLess(s: nat, t: nat)
    requires s < t < YEAR_10000
    ensures Less(FormatUtc(s), FormatUtc(t))
  {
    var m, n, a, b := s / 86400, t / 86400, s % 86400, t % 86400;
    DateIsNatural(m);
    DateIsNatural(n);
    FourDigitYears(m);
    FourDigitYears(n);
    var tail, later := "T" + (TimeText(a) + "Z"), "T" + (TimeText(b) + "Z");
    if m < n {
      LaterDaysLaterDates(m, n);
      DateTextOrder(DateAfter(m), DateAfter(n));
      DateTextWidth(DateAfter(m));
      DateTextWidth(DateAfter(n));
      LessBefore(DateText(DateAfter(m)), DateText(DateAfter(n)), tail, later);
    } else {
      assert m == n && a < b;
      TimeTextOrder(a, b);
      TimeTextWidth(a);
      TimeTextWidth(b);
      LessBefore(TimeText(a), TimeText(b), "Z", "Z");
      LessAfter("T", TimeText(a) + "Z", TimeText(b) + "Z");
      LessAfter(DateText(DateAfter(m)), tail, later);
    }
  }
}
