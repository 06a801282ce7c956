/** zic.c: overflow-detecting additions and rpytime, which turns a rule and a year into
    seconds since 1970-01-01 00:00 local time. */
module ZicTime {
  import opened Machine

  const SECS_PER_DAY := 86400

  // ---------------------------------------------------------------- additions

  /** oadd adds with wrap-around and looks at the result afterwards; the contract says that
      this detects overflow exactly. */
  function Oadd(t1: int, t2: int): (r: Outcome<int>)
    requires InLong(t1) && InLong(t2)
    ensures r == if InLong(t1 + t2) then Ok(t1 + t2) else Exit(TimeOverflow)
  {
    var t := WrapLong(t1 + t2);
    if (t2 > 0 && t <= t1) || (t2 < 0 && t >= t1) then Exit(TimeOverflow) else Ok(t)
  }

  /** tadd adds a long to a time_t; the two extreme times absorb what would leave the range. */
  function Tadd(t1: int, t2: int): (r: Outcome<int>)
    requires InTime(t1) && InLong(t2)
    ensures r.Ok? ==> InTime(r.value)
    ensures t1 == TIME_MAX && t2 > 0 ==> r == Ok(TIME_MAX)
    ensures t1 == TIME_MIN && t2 < 0 ==> r == Ok(TIME_MIN)
    ensures !(t1 == TIME_MAX && t2 > 0) && !(t1 == TIME_MIN && t2 < 0) && -TIME_SPAN < t2 < TIME_SPAN ==>
              r == if InTime(t1 + t2) then Ok(t1 + t2) else Exit(TimeOverflow)
  {
    if t1 == TIME_MAX && t2 > 0 then
      Ok(TIME_MAX)
    else if t1 == TIME_MIN && t2 < 0 then
      Ok(TIME_MIN)
    else
      var t := WrapTime(WrapLong(t1 + t2));
      if (t2 > 0 && t <= t1) || (t2 < 0 && t >= t1) then Exit(TimeOverflow) else Ok(t)
  }

  /** Remainder of a long by 2^32 with the sign of the dividend. */
  function LowPart(t2: int): int {
    t2 - CDiv(t2, TIME_SPAN) * TIME_SPAN
  }

  lemma WrapTimeUnique(x: int, r: int, k: int)
    requires InTime(r) && x - r == k * TIME_SPAN
    ensures WrapTime(x) == r
  {
    var m := (x - WrapTime(x)) / TIME_SPAN;
    assert x - WrapTime(x) == m * TIME_SPAN;
    assert WrapTime(x) - r == (k - m) * TIME_SPAN;
  }

  lemma WrapTimeOfLong(x: int)
    ensures WrapTime(WrapLong(x)) == WrapTime(x)
  {
    var m := (x - WrapLong(x)) / LONG_SPAN;
    var n := (WrapLong(x) - WrapTime(WrapLong(x))) / TIME_SPAN;
    assert x - WrapLong(x) == m * LONG_SPAN == (m * TIME_SPAN) * TIME_SPAN;
    WrapTimeUnique(x, WrapTime(WrapLong(x)), m * TIME_SPAN + n);
  }

  lemma WrapTimeShift(x: int, k: int)
    ensures WrapTime(x + k * TIME_SPAN) == WrapTime(x)
  {
    var m := (x - WrapTime(x)) / TIME_SPAN;
    WrapTimeUnique(x + k * TIME_SPAN, WrapTime(x), m + k);
  }

  /** Where tadd is silently wrong: exactly when the addend needs more than 32 bits and its low
      part alone is harmless. With a time_t narrower than long the check is therefore not exact. */
  lemma TaddMissesExactly(t1: int, t2: int)
    requires InTime(t1) && InLong(t2)
    requires !(t1 == TIME_MAX && t2 > 0) && !(t1 == TIME_MIN && t2 < 0)
    ensures (Tadd(t1, t2).Ok? && !InTime(t1 + t2))
       <==> (!(-TIME_SPAN < t2 < TIME_SPAN) && LowPart(t2) != 0 && InTime(t1 + LowPart(t2)))
  {
    var low := LowPart(t2);
    WrapTimeOfLong(t1 + t2);
    WrapTimeShift(t1 + low, CDiv(t2, TIME_SPAN));
    assert t1 + low + CDiv(t2, TIME_SPAN) * TIME_SPAN == t1 + t2;
    var t := WrapTime(t1 + low);
    assert t2 > 0 ==> 0 <= low < TIME_SPAN;
    assert t2 < 0 ==> -TIME_SPAN < low <= 0;
    if InTime(t1 + low) {
      assert t == t1 + low;
    } else if low > 0 {
      WrapTimeUnique(t1 + low, t1 + low - TIME_SPAN, 1);
    } else {
      WrapTimeUnique(t1 + low, t1 + low + TIME_SPAN, -1);
    }
  }

  lemma TaddWitness()
    ensures Tadd(0, TIME_SPAN + 1) == Ok(1)
  {
  }

  // ---------------------------------------------------------------- calendar

  predicate IsLeap(y: int) {
    (y % 4 == 0 && y % 100 != 0) || y % 400 == 0
  }

  function YearLength(y: int): nat {
    if IsLeap(y) then 366 else 365
  }

  function MonthLength(leap: bool, m: int): nat {
    if m == 1 then (if leap then 29 else 28)
    else if m in {3, 5, 8, 10} then 30
    else 31
  }

  /** Closed form of the Gregorian calendar: days from 1970-01-01 to the first of January of y. */
  function DaysBeforeYear(y: int): int {
    365 * (y - 1970) + ((y - 1) / 4 - (y - 1) / 100 + (y - 1) / 400) - 477
  }

  function DaysBeforeMonth(leap: bool, m: int): int
    requires 0 <= m <= 12
  {
    [0, 31, 59, 90, 120, 151, 181, 212, 243, 273, 304, 334, 365][m] + (if leap && m >= 2 then 1 else 0)
  }

  function DayNumber(y: int, m: int, d: int): int
    requires 0 <= m < 12
  {
    DaysBeforeYear(y) + DaysBeforeMonth(IsLeap(y), m) + d - 1
  }

  /** Day of the week, Sunday being 0; 1970-01-01 was a Thursday. */
  function Weekday(dayNumber: int): (w: int)
    ensures 0 <= w < 7
  {
    (4 + dayNumber) % 7
  }

  predicate IsDate(y: int, m: int, d: int) {
    0 <= m < 12 && 1 <= d <= MonthLength(IsLeap(y), m)
  }

  lemma YearStep(y: int)
    ensures DaysBeforeYear(y + 1) == DaysBeforeYear(y) + YearLength(y)
  {
    LeapCount(y);
  }

  lemma LeapCount(y: int)
    ensures y / 4 - (y - 1) / 4 == if y % 4 == 0 then 1 else 0
    ensures y / 100 - (y - 1) / 100 == if y % 100 == 0 then 1 else 0
    ensures y / 400 - (y - 1) / 400 == if y % 400 == 0 then 1 else 0
    ensures y % 400 == 0 ==> y % 100 == 0
    ensures y % 100 == 0 ==> y % 4 == 0
  {
  }

  lemma {:induction false} YearsGrow(y: int, z: int)
    requires y <= z
    ensures DaysBeforeYear(y) + 365 * (z - y) <= DaysBeforeYear(z)
    decreases z - y
  {
    if y < z {
      YearStep(z - 1);
      YearsGrow(y, z - 1);
    }
  }

  /** Every date of a year lies between the year's first day and the next year's. */
  lemma DateInYear(y: int, m: int, d: int)
    requires IsDate(y, m, d)
    ensures DaysBeforeYear(y) <= DayNumber(y, m, d) < DaysBeforeYear(y + 1)
  {
    YearStep(y);
  }

  // ---------------------------------------------------------------- rules

  datatype DayCode = Dom | DowGeq | DowLeq

  /** A Rule line. years holds the years for which the rule's year type answers TRUE. */
  datatype Rule = Rule(name: string, loyear: int, hiyear: int, years: set<int>,
                       month: int, dycode: DayCode, dayofmonth: int, wday: int,
                       tod: int, todisstd: bool, stdoff: int, abbrvar: string)

  /** What inrule and rulesub leave in a rule. */
  predicate RuleOk(r: Rule) {
    && 0 <= r.month < 12
    && 1 <= r.dayofmonth <= MonthLength(true, r.month)
    && 0 <= r.wday < 7
    && 0 <= r.tod < SECS_PER_DAY
    && -SECS_PER_DAY < r.stdoff < SECS_PER_DAY
  }

  predicate YearOk(y: int) {
    -0x8000_0000 <= y < 0x8000_0000
  }

  /** The day of the month the day field names before weekdays are looked at. */
  function Anchor(r: Rule, y: int): Outcome<int> {
    if r.month == 1 && r.dayofmonth == 29 && !IsLeap(y) then
      (if r.dycode == DowLeq then Ok(28) else Exit(LeapDayInCommonYear))
    else
      Ok(r.dayofmonth)
  }

  /** How many days after the anchor a ">=" rule lands. */
  function DaysForward(anchorWday: int, wday: int): int {
    if anchorWday <= wday then wday - anchorWday else wday + 7 - anchorWday
  }

  /** How many days before the anchor a "<=" rule lands. Going below Sunday costs one day more
      than the week has. */
  function DaysBack(anchorWday: int, wday: int): int {
    if wday <= anchorWday then anchorWday - wday else anchorWday + 8 - wday
  }

  function DaysMoved(dycode: DayCode, anchorWday: int, wday: int): int {
    match dycode
    case Dom => 0
    case DowGeq => DaysForward(anchorWday, wday)
    case DowLeq => -DaysBack(anchorWday, wday)
  }

  /** The day of the month a rule names in year y. */
  function RuleDay(r: Rule, y: int): (o: Outcome<int>)
    requires RuleOk(r)
    ensures o.Ok? ==> IsDate(y, r.month, o.value)
  {
    var anchor :- Anchor(r, y);
    var d := anchor + DaysMoved(r.dycode, Weekday(DayNumber(y, r.month, anchor)), r.wday);
    if IsDate(y, r.month, d) then Ok(d) else Exit(NoDayInMonth)
  }

  /** Seconds of a day and the rule's time of day, saturating in the rule's last or first year. */
  function SecondsOf(r: Rule, y: int, day: int): (o: Outcome<int>)
    requires RuleOk(r)
    ensures o.Ok? ==> InTime(o.value)
  {
    if !InTime(day * SECS_PER_DAY) then
      if y == r.hiyear then Ok(TIME_MAX) else if y == r.loyear then Ok(TIME_MIN) else Exit(TimeOverflow)
    else if InTime(day * SECS_PER_DAY + r.tod) then
      Ok(day * SECS_PER_DAY + r.tod)
    else
      Exit(TimeOverflow)
  }

  /** What rpytime answers. */
  function RuleTime(r: Rule, y: int): (o: Outcome<int>)
    requires RuleOk(r)
    ensures o.Ok? ==> InTime(o.value)
  {
    var d :- RuleDay(r, y);
    SecondsOf(r, y, DayNumber(y, r.month, d))
  }

  lemma SmallDays(y: int, m: int, d: int)
    requires YearOk(y) && 0 <= m < 12 && -40 < d < 80
    ensures -1_000_000_000_000 < DaysBeforeYear(y) < 1_000_000_000_000
    ensures -1_000_000_000_000 < DayNumber(y, m, d) < 1_000_000_000_000
  {
  }

  /** rpytime's last check: the quotient of the truncated product gives the factor back exactly
      when nothing was lost. */
  lemma CheapOverflowCheck(day: int)
    requires -1_000_000_000_000 < day < 1_000_000_000_000
    ensures CDiv(WrapTime(WrapTime(day) * SECS_PER_DAY), SECS_PER_DAY) == day <==> InTime(day * SECS_PER_DAY)
    ensures InTime(day * SECS_PER_DAY) ==> WrapTime(WrapTime(day) * SECS_PER_DAY) == day * SECS_PER_DAY
  {
    var t := WrapTime(WrapTime(day) * SECS_PER_DAY);
    var k := (day - WrapTime(day)) / TIME_SPAN;
    assert day * SECS_PER_DAY == WrapTime(day) * SECS_PER_DAY + (k * SECS_PER_DAY) * TIME_SPAN;
    WrapTimeShift(WrapTime(day) * SECS_PER_DAY, k * SECS_PER_DAY);
    assert t == WrapTime(day * SECS_PER_DAY);
    var n := (day * SECS_PER_DAY - t) / TIME_SPAN;
    assert day * SECS_PER_DAY - t == n * TIME_SPAN;
  }

  /** The first two loops of rpytime: by years from 1970 in either direction, then by months. */
  method DaysToMonth(wantedy: int, month: int) returns (dayoff: int)
    requires YearOk(wantedy) && 0 <= month < 12
    ensures dayoff == DayNumber(wantedy, month, 1)
  {
    var m, y := 0, 1970;
    dayoff := 0;
    while wantedy != y
      invariant YearOk(y) && (1970 <= y <= wantedy || wantedy <= y <= 1970)
      invariant dayoff == DaysBeforeYear(y)
      decreases if wantedy > y then wantedy - y else y - wantedy
    {
      var i;
      SmallDays(y, 0, 1);
      if wantedy > y {
        i := YearLength(y);
        YearStep(y);
        y := y + 1;
      } else {
        y := y - 1;
        i := -(YearLength(y) as int);
        YearStep(y);
      }
      dayoff := Oadd(dayoff, i).value;
    }
    while m != month
      invariant 0 <= m <= month
      invariant dayoff == DaysBeforeYear(y) + DaysBeforeMonth(IsLeap(y), m)
      decreases month - m
    {
      SmallDays(y, m, 1);
      dayoff := Oadd(dayoff, MonthLength(IsLeap(y), m)).value;
      m := m + 1;
    }
  }

  /** The weekday of a day number without taking the remainder of a negative one. */
  method WeekdayOf(dayoff: int) returns (wday: int)
    ensures wday == Weekday(dayoff)
  {
    wday := 4;
    if dayoff >= 0 {
      wday := (wday + dayoff) % 7;
    } else {
      wday := wday - (-dayoff) % 7;
      if wday < 0 {
        wday := wday + 7;
      }
    }
  }

  /** The third loop of rpytime, which moves day by day to the wanted weekday. */
  method SeekWeekday(dycode: DayCode, target: int, day: int, dayOfMonth: int) returns (dayoff: int, i: int)
    requires dycode != Dom && 0 <= target < 7 && -1_000_000_000_001 < day < 1_000_000_000_001
    ensures dayoff == day + DaysMoved(dycode, Weekday(day), target)
    ensures i == dayOfMonth + DaysMoved(dycode, Weekday(day), target)
  {
    dayoff, i := day, dayOfMonth;
    var wday := WeekdayOf(dayoff);
    while wday != target
      invariant 0 <= wday <= if dycode == DowLeq then 7 else 6
      invariant dayoff + DaysMoved(dycode, wday, target) == day + DaysMoved(dycode, Weekday(day), target)
      invariant i - dayoff == dayOfMonth - day
      invariant -8 <= day - dayoff <= 8
      decreases if dycode == DowGeq then DaysForward(wday, target) else DaysBack(wday, target)
    {
      if dycode == DowGeq {
        dayoff := Oadd(dayoff, 1).value;
        wday := wday + 1;
        if wday >= 7 {
          wday := 0;
        }
        i := i + 1;
      } else {
        dayoff := Oadd(dayoff, -1).value;
        wday := wday - 1;
        if wday < 0 {
          wday := 7;
        }
        i := i - 1;
      }
    }
  }

  /** The end of rpytime: days to seconds, saturating in the rule's own first or last year. */
  method DaysToSeconds(r: Rule, wantedy: int, dayoff: int) returns (o: Outcome<int>)
    requires RuleOk(r) && -1_000_000_000_000 < dayoff < 1_000_000_000_000
    ensures o == SecondsOf(r, wantedy, dayoff)
  {
    CheapOverflowCheck(dayoff);
    var t := WrapTime(WrapTime(dayoff) * SECS_PER_DAY);
    if CDiv(t, SECS_PER_DAY) != dayoff {
      if wantedy == r.hiyear {
        return Ok(TIME_MAX);
      }
      if wantedy == r.loyear {
        return Ok(TIME_MIN);
      }
      return Exit(TimeOverflow);
    }
    o := Tadd(t, r.tod);
  }

  method Rpytime(r: Rule, wantedy: int) returns (o: Outcome<int>)
    requires RuleOk(r) && YearOk(wantedy)
    ensures o == RuleTime(r, wantedy)
  {
    var dayoff := DaysToMonth(wantedy, r.month);
    var i := r.dayofmonth;
    if r.month == 1 && i == 29 && !IsLeap(wantedy) {
      if r.dycode == DowLeq {
        i := i - 1;
      } else {
        return Exit(LeapDayInCommonYear);
      }
    }
    i := i - 1;
    SmallDays(wantedy, r.month, 1);
    dayoff := Oadd(dayoff, i).value;
    assert Anchor(r, wantedy) == Ok(i + 1) && dayoff == DayNumber(wantedy, r.month, i + 1);
    SmallDays(wantedy, r.month, i + 1);
    if r.dycode == DowGeq || r.dycode == DowLeq {
      dayoff, i := SeekWeekday(r.dycode, r.wday, dayoff, i);
      if i < 0 || i >= MonthLength(IsLeap(wantedy), r.month) {
        return Exit(NoDayInMonth);
      }
    }
    assert RuleDay(r, wantedy) == Ok(i + 1) && dayoff == DayNumber(wantedy, r.month, i + 1);
    SmallDays(wantedy, r.month, i + 1);
    o := DaysToSeconds(r, wantedy, dayoff);
  }

  // ---------------------------------------------------------------- what rpytime promises

  lemma DayNumberShift(y: int, m: int, d: int, e: int)
    requires 0 <= m < 12
    ensures DayNumber(y, m, d) - d == DayNumber(y, m, e) - e
  {
  }

  /** A time that did not saturate is the exact second of a date in the wanted year and month.
      When that date's midnight fits, the overflow test fires exactly when the second does not. */
  lemma RuleTimeIsExact(r: Rule, y: int, d: int)
    requires RuleOk(r) && YearOk(y) && RuleDay(r, y) == Ok(d)
    ensures IsDate(y, r.month, d)
    ensures var midnight := DayNumber(y, r.month, d) * SECS_PER_DAY;
            var s := midnight + r.tod;
            && (InTime(midnight) ==> RuleTime(r, y) == if InTime(s) then Ok(s) else Exit(TimeOverflow))
            && (!InTime(midnight) ==> RuleTime(r, y) == if y == r.hiyear then Ok(TIME_MAX)
                                                        else if y == r.loyear then Ok(TIME_MIN)
                                                        else Exit(TimeOverflow))
  {
  }

  /** The midnight test is stricter than the range: on exactly one day, 1901-12-13, rpytime
      saturates or exits although the wanted second fits a time_t. */
  lemma MidnightTestIsTooStrict(r: Rule, y: int, d: int)
    requires RuleOk(r) && YearOk(y) && RuleDay(r, y) == Ok(d)
    ensures InTime(DayNumber(y, r.month, d) * SECS_PER_DAY + r.tod) && !InTime(DayNumber(y, r.month, d) * SECS_PER_DAY)
       <==> DayNumber(y, r.month, d) == DayNumber(1901, 11, 13) && r.tod >= 74752
  {
    StrictOnOneDay(DayNumber(y, r.month, d), r.tod);
  }

  lemma StrictOnOneDay(day: int, tod: int)
    requires 0 <= tod < SECS_PER_DAY
    ensures InTime(day * SECS_PER_DAY + tod) && !InTime(day * SECS_PER_DAY)
       <==> day == DayNumber(1901, 11, 13) && tod >= 74752
  {
    assert DayNumber(1901, 11, 13) == -24856;
  }

  lemma ForwardIsNearest(first: int, wday: int, k: int)
    requires 0 <= wday < 7
    ensures k == DaysForward(Weekday(first), wday) <==> 0 <= k < 7 && Weekday(first + k) == wday
  {
  }

  lemma BackIsNearest(first: int, wday: int, k: int)
    requires 0 <= wday < 7 && 0 <= k < 7 && Weekday(first - k) == wday
    ensures DaysBack(Weekday(first), wday) == if wday <= Weekday(first) then k else k + 1
    ensures Weekday(first - k - 1) != wday
  {
  }

  /** The day the field names is February 29, in a year that has none. */
  predicate NamesNoDay(r: Rule, y: int) {
    r.month == 1 && r.dayofmonth == 29 && !((y % 4 == 0 && y % 100 != 0) || y % 400 == 0)
  }

  /** A rule for February 29 means the 28th in such a year if it looks backward from there, and otherwise ends the
      program. */
  lemma LeapDayRule(r: Rule, y: int)
    requires RuleOk(r) && NamesNoDay(r, y)
    ensures RuleDay(r, y) == if r.dycode == DowLeq then RuleDay(r.(dayofmonth := 28), y) else Exit(LeapDayInCommonYear)
  {
    assert Anchor(r.(dayofmonth := 28), y) == Ok(28);
  }

  /** A rule for a day of the month names that day. */
  lemma DomIsNamed(r: Rule, y: int)
    requires RuleOk(r) && r.dycode == Dom && !NamesNoDay(r, y)
    ensures RuleDay(r, y) == Ok(r.dayofmonth)
  {
    assert Anchor(r, y) == Ok(r.dayofmonth);
  }

  /** A ">=" rule names day d exactly when d is the first day from the anchor on that has the
      weekday and the month has such a day. */
  lemma GeqIsNearest(r: Rule, y: int, a: int, d: int)
    requires RuleOk(r) && r.dycode == DowGeq && !NamesNoDay(r, y) && a == r.dayofmonth
    ensures RuleDay(r, y) == Ok(d) <==>
            IsDate(y, r.month, d) && a <= d < a + 7 && Weekday(DayNumber(y, r.month, d)) == r.wday
  {
    DayNumberShift(y, r.month, a, d);
    ForwardIsNearest(DayNumber(y, r.month, a), r.wday, d - a);
  }

  /** A "<=" rule lands on its weekday if and only if that weekday does not come after the
      anchor's in the week. d is the nearest such day up to the anchor; the rule takes the day
      before d whenever the search goes back past a Sunday. */
  lemma LeqIsNearest(r: Rule, y: int, a: int, d: int)
    requires RuleOk(r) && r.dycode == DowLeq && a == if NamesNoDay(r, y) then 28 else r.dayofmonth
    requires a - 7 < d <= a && Weekday(DayNumber(y, r.month, d)) == r.wday
    ensures r.wday <= Weekday(DayNumber(y, r.month, a)) ==>
              RuleDay(r, y) == if d >= 1 then Ok(d) else Exit(NoDayInMonth)
    ensures r.wday > Weekday(DayNumber(y, r.month, a)) ==>
              RuleDay(r, y) == if d - 1 >= 1 then Ok(d - 1) else Exit(NoDayInMonth)
    ensures RuleDay(r, y).Ok? ==>
              (Weekday(DayNumber(y, r.month, RuleDay(r, y).value)) == r.wday <==>
               r.wday <= Weekday(DayNumber(y, r.month, a)))
  {
    DayNumberShift(y, r.month, a, d);
    DayNumberShift(y, r.month, a, d - 1);
    BackIsNearest(DayNumber(y, r.month, a), r.wday, a - d);
  }

  /** 1987-02-14 was a Saturday and Sat<=14 finds it; 1988-02-14 was a Sunday and Sat<=14 lands on
      Friday the 12th. */
  lemma LeqWitness(r: Rule)
    requires RuleOk(r) && r.month == 1 && r.dycode == DowLeq && r.wday == 6 && r.dayofmonth == 14
    ensures RuleDay(r, 1987) == Ok(14) && RuleDay(r, 1988) == Ok(12)
    ensures Weekday(DayNumber(1988, 1, 12)) == 5
  {
  }

  /** Unsaturated times of an earlier year come before those of a later one, whatever the rules. */
  lemma YearsAreOrdered(r: Rule, y: int, q: Rule, z: int)
    requires RuleOk(r) && RuleOk(q) && YearOk(y) && YearOk(z) && y < z
    requires RuleTime(r, y).Ok? && RuleTime(r, y).value != TIME_MIN && RuleTime(r, y).value != TIME_MAX
    requires RuleTime(q, z).Ok? && RuleTime(q, z).value != TIME_MIN && RuleTime(q, z).value != TIME_MAX
    ensures RuleTime(r, y).value < RuleTime(q, z).value
  {
    var d, e := RuleDay(r, y).value, RuleDay(q, z).value;
    DateInYear(y, r.month, d);
    DateInYear(z, q.month, e);
    YearsGrow(y + 1, z);
  }
}
