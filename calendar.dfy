/**
 * Timestamps, day numbers and the proleptic Gregorian calendar, as far as the
 * application uses them: the UTC calendar day of an instant (what
 * `toISOString().split('T')[0]` and SQLite's `DATE(...)` give), the local
 * calendar day (what `toDateString` compares), and the year and month of a day
 * (SQLite's `strftime('%Y-%m', ...)`, JavaScript's `getFullYear`/`getMonth`).
 * The local time zone is a fixed offset in milliseconds, passed in by the caller.
 */
module Calendar {

  /** Milliseconds in a day: `24 * 60 * 60 * 1000`. */
  const DayMs: int := 86400000

  /** The day number of the UTC calendar date of instant `t` (floor division). */
  function UtcDay(t: int): int
  {
    t / DayMs
  }

  /** The day number of the local calendar date of instant `t`, for a zone `offset` ms ahead of UTC. */
  function LocalDay(t: int, offset: int): int
  {
    (t + offset) / DayMs
  }

  /** The instant a `YYYY-MM-DD` text denotes when parsed by `new Date(...)`: UTC midnight. */
  function MidnightUtc(day: int): int
  {
    day * DayMs
  }

  /** Two instants share a UTC day exactly when they lie in the same day-long window. */
  lemma UtcDayWindow(t: int, day: int)
    ensures UtcDay(t) == day <==> MidnightUtc(day) <= t < MidnightUtc(day) + DayMs
  {
  }

  lemma UtcDayOfMidnight(day: int)
    ensures UtcDay(MidnightUtc(day)) == day
  {
  }

  datatype Date = Date(year: int, month: int, day: int)

  /** Gregorian leap years: divisible by 4, except centuries not divisible by 400. */
  predicate IsLeapYear(y: int)
  {
    y % 4 == 0 && (y % 100 != 0 || y % 400 == 0)
  }

  function DaysInMonth(year: int, month: int): int
  {
    if month == 2 then (if IsLeapYear(year) then 29 else 28)
    else if month == 4 || month == 6 || month == 9 || month == 11 then 30
    else 31
  }

  predicate ValidDate(date: Date)
  {
    1 <= date.month <= 12 && 1 <= date.day <= DaysInMonth(date.year, date.month)
  }

  /** The calendar's successor of a date. */
  function NextDay(date: Date): Date
  {
    if date.day < DaysInMonth(date.year, date.month) then Date(date.year, date.month, date.day + 1)
    else if date.month < 12 then Date(date.year, date.month + 1, 1)
    else Date(date.year + 1, 1, 1)
  }

  // ---- locating a day among consecutive runs of days ----

  /** Day `offset` (counted from 0) of run `index`. */
  datatype Slot = Slot(index: int, offset: int)

  /** The days in runs `i` to `n - 1`, run `k` being `len(k)` days long. */
  function SlotsFrom(len: int -> int, i: int, n: int): int
    decreases n - i
  {
    if i >= n then 0 else len(i) + SlotsFrom(len, i + 1, n)
  }

  /** Where day `x`, counted from the start of run `i`, falls. */
  function FindSlot(len: int -> int, n: int, i: int, x: int): Slot
    requires 0 <= x < SlotsFrom(len, i, n)
    decreases n - i
  {
    if x < len(i) then Slot(i, x) else FindSlot(len, n, i + 1, x - len(i))
  }

  /** No run from `i` to `n - 1` is empty. */
  predicate Positive(len: int -> int, i: int, n: int)
  {
    forall k :: i <= k < n ==> len(k) > 0
  }

  lemma {:induction false} SlotsFromNonNegative(len: int -> int, i: int, n: int)
    requires Positive(len, i, n)
    ensures SlotsFrom(len, i, n) >= 0
    decreases n - i
  {
    if i < n {
      SlotsFromNonNegative(len, i + 1, n);
    }
  }

  lemma {:induction false} FindSlotBounds(len: int -> int, n: int, i: int, x: int)
    requires 0 <= x < SlotsFrom(len, i, n)
    ensures i <= FindSlot(len, n, i, x).index < n
    ensures 0 <= FindSlot(len, n, i, x).offset < len(FindSlot(len, n, i, x).index)
    decreases n - i
  {
    if x >= len(i) {
      FindSlotBounds(len, n, i + 1, x - len(i));
    }
  }

  lemma {:induction false} FindSlotNext(len: int -> int, n: int, i: int, x: int)
    requires Positive(len, i, n)
    requires 0 <= x && x + 1 < SlotsFrom(len, i, n)
    ensures FindSlot(len, n, i, x + 1) ==
      var s := FindSlot(len, n, i, x);
      if s.offset + 1 < len(s.index) then Slot(s.index, s.offset + 1) else Slot(s.index + 1, 0)
    decreases n - i
  {
    if x >= len(i) {
      FindSlotNext(len, n, i + 1, x - len(i));
    } else if x + 1 == len(i) {
      assert i + 1 < n;
      assert len(i + 1) > 0;
    }
  }

  lemma {:induction false} FindSlotLast(len: int -> int, n: int, i: int)
    requires i < n && Positive(len, i, n)
    ensures SlotsFrom(len, i, n) > 0
    ensures FindSlot(len, n, i, SlotsFrom(len, i, n) - 1) == Slot(n - 1, len(n - 1) - 1)
    decreases n - i
  {
    if i + 1 < n {
      FindSlotLast(len, n, i + 1);
    }
  }

  lemma {:induction false} FindSlotAt(len: int -> int, n: int, i: int, j: int, off: int, x: int)
    requires Positive(len, i, n)
    requires i <= j < n && 0 <= off < len(j)
    requires x == SlotsFrom(len, i, n) - SlotsFrom(len, j, n) + off
    ensures 0 <= x < SlotsFrom(len, i, n)
    ensures FindSlot(len, n, i, x) == Slot(j, off)
    decreases j - i
  {
    if i < j {
      FindSlotAt(len, n, i + 1, j, off, x - len(i));
    } else {
      SlotsFromNonNegative(len, i + 1, n);
    }
  }


  // ---- eras of 400 years, each starting on 1 March ----

  /** The length of year `yoe` of an era, which runs from 1 March to the end of February of the next year. */
  function YearLength(yoe: int): int
  {
    if IsLeapYear(yoe + 1) then 366 else 365
  }

  /** Days of an era before its year `y`, counted from the Gregorian rule. */
  function DaysBeforeYear(y: int): int
  {
    365 * y + y / 4 - y / 100 + y / 400
  }

  lemma DaysBeforeGroup(c: int, g: int, y: int)
    requires 0 <= c <= 3 && 0 <= g <= 24 && 0 <= y <= 3
    ensures DaysBeforeYear(100 * c + 4 * g + y) == 36524 * c + 1461 * g + 365 * y
  {
    var yoe := 100 * c + 4 * g + y;
    assert yoe / 4 == 25 * c + g;
    assert yoe / 100 == c;
    assert yoe / 400 == 0;
  }

  lemma GroupLeap(c: int, g: int, y: int)
    requires 0 <= c <= 3 && 0 <= g <= 24 && 0 <= y <= 3
    ensures IsLeapYear(100 * c + 4 * g + y + 1) <==> y == 3 && (g < 24 || c == 3)
  {
    var n := 100 * c + 4 * g + y + 1;
    if y < 3 {
      assert n % 4 == y + 1;
    } else if g < 24 {
      assert n == 4 * (25 * c + g + 1);
      assert n % 100 == 4 * (g + 1);
    } else {
      assert n == 100 * (c + 1);
    }
  }

  lemma GroupYearStep(c: int, g: int, y: int)
    requires 0 <= c <= 3 && 0 <= g <= 24 && 0 <= y <= 3
    ensures DaysBeforeYear(100 * c + 4 * g + y + 1) - DaysBeforeYear(100 * c + 4 * g + y)
            == if y == 3 && (g < 24 || c == 3) then 366 else 365
  {
    DaysBeforeGroup(c, g, y);
    if y < 3 {
      DaysBeforeGroup(c, g, y + 1);
    } else if g < 24 {
      DaysBeforeGroup(c, g + 1, 0);
    } else if c < 3 {
      DaysBeforeGroup(c + 1, 0, 0);
    }
  }

  /** The closed-form count grows by the length of each year. */
  lemma YearStep(yoe: int)
    requires 0 <= yoe <= 399
    ensures DaysBeforeYear(yoe + 1) - DaysBeforeYear(yoe) == YearLength(yoe)
  {
    var c := yoe / 100;
    var g := yoe % 100 / 4;
    var y := yoe % 4;
    assert yoe == 100 * c + 4 * g + y;
    GroupYearStep(c, g, y);
    GroupLeap(c, g, y);
  }

  lemma {:induction false} YearsFrom(y: int)
    requires 0 <= y <= 400
    ensures SlotsFrom(YearLength, y, 400) == DaysBeforeYear(400) - DaysBeforeYear(y)
    decreases 400 - y
  {
    if y < 400 {
      YearsFrom(y + 1);
      YearStep(y);
    }
  }

  /** An era has 146097 days. */
  lemma EraLength()
    ensures SlotsFrom(YearLength, 0, 400) == 146097
    ensures Positive(YearLength, 0, 400)
  {
    YearsFrom(0);
  }

  lemma ShiftMod4(era: int, k: int)
    ensures (400 * era + k) % 4 == k % 4
  {
    assert 400 * era + k == 4 * (100 * era + k / 4) + k % 4;
  }

  lemma ShiftMod100(era: int, k: int)
    ensures (400 * era + k) % 100 == k % 100
  {
    assert 400 * era + k == 100 * (4 * era + k / 100) + k % 100;
  }

  lemma ShiftMod400(era: int, k: int)
    ensures (400 * era + k) % 400 == k % 400
  {
    assert 400 * era + k == 400 * (era + k / 400) + k % 400;
  }

  /** Leap years repeat every 400 years. */
  lemma LeapShift(era: int, k: int)
    ensures IsLeapYear(400 * era + k) <==> IsLeapYear(k)
  {
    ShiftMod4(era, k);
    ShiftMod100(era, k);
    ShiftMod400(era, k);
  }

  // ---- months of a March-based year ----

  /** The length of month `mp` counted from March (0 is March, 11 is February). */
  function MonthLength(mp: int, leap: bool): int
  {
    if mp == 11 then (if leap then 29 else 28)
    else if mp == 1 || mp == 3 || mp == 6 || mp == 8 then 30
    else 31
  }

  function MonthLengths(leap: bool): int -> int
  {
    mp => MonthLength(mp, leap)
  }

  /** The civil month number of month `mp` counted from March. */
  function CivilMonth(mp: int): int
  {
    if mp < 10 then mp + 3 else mp - 9
  }

  /** Days of a March-based year before its month `mp`. */
  function MonthStart(mp: int): int
  {
    if mp <= 0 then 0
    else if mp == 1 then 31
    else if mp == 2 then 61
    else if mp == 3 then 92
    else if mp == 4 then 122
    else if mp == 5 then 153
    else if mp == 6 then 184
    else if mp == 7 then 214
    else if mp == 8 then 245
    else if mp == 9 then 275
    else if mp == 10 then 306
    else 337
  }

  lemma {:induction false} MonthsFrom(leap: bool, mp: int)
    requires 0 <= mp <= 11
    ensures SlotsFrom(MonthLengths(leap), mp, 12) == (if leap then 366 else 365) - MonthStart(mp)
    decreases 12 - mp
  {
    var len := MonthLengths(leap);
    if mp < 11 {
      MonthsFrom(leap, mp + 1);
      assert SlotsFrom(len, mp, 12) == len(mp) + SlotsFrom(len, mp + 1, 12);
    } else {
      assert SlotsFrom(len, 12, 12) == 0;
    }
  }

  /** The months of a year fill it exactly. */
  lemma YearOfMonths(leap: bool)
    ensures SlotsFrom(MonthLengths(leap), 0, 12) == if leap then 366 else 365
    ensures Positive(MonthLengths(leap), 0, 12)
  {
    MonthsFrom(leap, 0);
  }

  /** The date of day `m.offset + 1` of month `m.index` (counted from March) of year `yoe` of era `era`. */
  function DateOfMonthSlot(era: int, yoe: int, m: Slot): Date
  {
    Date(400 * era + yoe + (if m.index >= 10 then 1 else 0), CivilMonth(m.index), m.offset + 1)
  }

  /** The date of day `doy` of year `yoe` of era `era`. */
  function DateInEra(era: int, yoe: int, doy: int): Date
    requires 0 <= doy < YearLength(yoe)
  {
    var leap := IsLeapYear(yoe + 1);
    YearOfMonths(leap);
    DateOfMonthSlot(era, yoe, FindSlot(MonthLengths(leap), 12, 0, doy))
  }

  /** The date of day `e.offset` of year `e.index` of era `era`. */
  function DateOfYearSlot(era: int, e: Slot): Date
    requires 0 <= e.offset < YearLength(e.index)
  {
    DateInEra(era, e.index, e.offset)
  }

  /** The date of day `doe` of era `era`. */
  function DateOfEraDay(era: int, doe: int): Date
    requires 0 <= doe < 146097
  {
    EraLength();
    FindSlotBounds(YearLength, 400, 0, doe);
    DateOfYearSlot(era, FindSlot(YearLength, 400, 0, doe))
  }

  /** The calendar date of a day number (days since 1970-01-01), by eras of 400 years from 1 March 0000. */
  function DateOfDay(d: int): Date
  {
    var z := d + 719468;
    DateOfEraDay(z / 146097, z % 146097)
  }

  /** The `YYYY-MM` bucket of a day. */
  datatype YearMonth = YearMonth(year: int, month: int)

  function YearMonthOfDay(d: int): YearMonth
  {
    var date := DateOfDay(d);
    YearMonth(date.year, date.month)
  }

  /** Month `mp` of year `yoe` of an era has as many days as the civil calendar gives its month. */
  lemma MonthLengthCivil(era: int, yoe: int, mp: int)
    requires 0 <= mp <= 11
    ensures MonthLength(mp, IsLeapYear(yoe + 1))
            == DaysInMonth(400 * era + yoe + (if mp >= 10 then 1 else 0), CivilMonth(mp))
  {
    LeapShift(era, yoe + 1);
  }

  lemma DateInEraValid(era: int, yoe: int, doy: int)
    requires 0 <= doy < YearLength(yoe)
    ensures ValidDate(DateInEra(era, yoe, doy))
  {
    var leap := IsLeapYear(yoe + 1);
    YearOfMonths(leap);
    FindSlotBounds(MonthLengths(leap), 12, 0, doy);
    MonthLengthCivil(era, yoe, FindSlot(MonthLengths(leap), 12, 0, doy).index);
  }

  lemma DateInEraFirst(era: int, yoe: int)
    ensures 0 < YearLength(yoe)
    ensures DateInEra(era, yoe, 0) == Date(400 * era + yoe, 3, 1)
  {
    YearOfMonths(IsLeapYear(yoe + 1));
  }

  /** The last day of a year of an era is followed by 1 March. */
  lemma DateInEraLast(era: int, yoe: int)
    ensures 0 < YearLength(yoe)
    ensures NextDay(DateInEra(era, yoe, YearLength(yoe) - 1)) == Date(400 * era + yoe + 1, 3, 1)
  {
    var leap := IsLeapYear(yoe + 1);
    YearOfMonths(leap);
    FindSlotLast(MonthLengths(leap), 12, 0);
    MonthLengthCivil(era, yoe, 11);
  }

  /** The day after a day of a month, in the months of a March-based year. */
  lemma MonthSlotNext(era: int, yoe: int, m: Slot)
    requires 0 <= m.index <= 11 && 0 <= m.offset < MonthLength(m.index, IsLeapYear(yoe + 1))
    requires m.offset + 1 == MonthLength(m.index, IsLeapYear(yoe + 1)) ==> m.index < 11
    ensures NextDay(DateOfMonthSlot(era, yoe, m)) == DateOfMonthSlot(era, yoe,
      if m.offset + 1 < MonthLength(m.index, IsLeapYear(yoe + 1)) then Slot(m.index, m.offset + 1)
      else Slot(m.index + 1, 0))
  {
    MonthLengthCivil(era, yoe, m.index);
  }

  /** The month slot of the day after `doy`, in a year of the given kind. */
  lemma MonthFindNext(leap: bool, doy: int)
    requires 0 <= doy && doy + 1 < SlotsFrom(MonthLengths(leap), 0, 12)
    ensures var m := FindSlot(MonthLengths(leap), 12, 0, doy);
      && 0 <= m.index <= 11 && 0 <= m.offset < MonthLength(m.index, leap)
      && (m.offset + 1 == MonthLength(m.index, leap) ==> m.index < 11)
      && FindSlot(MonthLengths(leap), 12, 0, doy + 1) ==
         if m.offset + 1 < MonthLength(m.index, leap) then Slot(m.index, m.offset + 1) else Slot(m.index + 1, 0)
  {
    var len := MonthLengths(leap);
    YearOfMonths(leap);
    FindSlotBounds(len, 12, 0, doy);
    FindSlotBounds(len, 12, 0, doy + 1);
    FindSlotNext(len, 12, 0, doy);
  }

  lemma DateInEraNext(era: int, yoe: int, doy: int)
    requires 0 <= doy && doy + 1 < YearLength(yoe)
    ensures NextDay(DateInEra(era, yoe, doy)) == DateInEra(era, yoe, doy + 1)
  {
    var leap := IsLeapYear(yoe + 1);
    YearOfMonths(leap);
    MonthFindNext(leap, doy);
    MonthSlotNext(era, yoe, FindSlot(MonthLengths(leap), 12, 0, doy));
  }

  lemma EraDayValid(era: int, doe: int)
    requires 0 <= doe < 146097
    ensures ValidDate(DateOfEraDay(era, doe))
  {
    EraLength();
    FindSlotBounds(YearLength, 400, 0, doe);
    var e := FindSlot(YearLength, 400, 0, doe);
    DateInEraValid(era, e.index, e.offset);
  }

  /** Every day number has a real calendar date. */
  lemma DateOfDayValid(d: int)
    ensures ValidDate(DateOfDay(d))
  {
    var z := d + 719468;
    EraDayValid(z / 146097, z % 146097);
  }

  /** The day after a day of a year of an era. */
  lemma YearSlotNext(era: int, e: Slot)
    requires 0 <= e.offset < YearLength(e.index)
    ensures 0 < YearLength(e.index + 1)
    ensures NextDay(DateOfYearSlot(era, e)) ==
      if e.offset + 1 < YearLength(e.index) then DateOfYearSlot(era, Slot(e.index, e.offset + 1))
      else DateOfYearSlot(era, Slot(e.index + 1, 0))
  {
    DateInEraFirst(era, e.index + 1);
    if e.offset + 1 < YearLength(e.index) {
      DateInEraNext(era, e.index, e.offset);
    } else {
      DateInEraLast(era, e.index);
    }
  }

  /** The year slot of the day after `doe`, within an era. */
  lemma YearFindNext(doe: int)
    requires 0 <= doe < 146096
    ensures SlotsFrom(YearLength, 0, 400) == 146097
    ensures var e := FindSlot(YearLength, 400, 0, doe);
      && 0 <= e.offset < YearLength(e.index)
      && FindSlot(YearLength, 400, 0, doe + 1) ==
         if e.offset + 1 < YearLength(e.index) then Slot(e.index, e.offset + 1) else Slot(e.index + 1, 0)
  {
    EraLength();
    FindSlotNext(YearLength, 400, 0, doe);
    FindSlotBounds(YearLength, 400, 0, doe);
  }

  lemma EraDayNext(era: int, doe: int)
    requires 0 <= doe < 146096
    ensures NextDay(DateOfEraDay(era, doe)) == DateOfEraDay(era, doe + 1)
  {
    YearFindNext(doe);
    YearSlotNext(era, FindSlot(YearLength, 400, 0, doe));
  }

  /** The last day of an era is followed by the first day of the next. */
  lemma EraDayWrap(era: int)
    ensures NextDay(DateOfEraDay(era, 146096)) == DateOfEraDay(era + 1, 0)
  {
    EraLength();
    FindSlotLast(YearLength, 400, 0);
    DateInEraLast(era, 399);
    DateInEraFirst(era + 1, 0);
  }

  lemma EraOfNext(d: int)
    ensures (d + 719468) % 146097 < 146096 ==>
      (d + 1) + 719468 == 146097 * ((d + 719468) / 146097) + (d + 719468) % 146097 + 1
    ensures (d + 719468) % 146097 == 146096 ==>
      (d + 1) + 719468 == 146097 * ((d + 719468) / 146097 + 1)
  {
  }

  lemma EraDayOf(d: int, era: int, doe: int)
    requires 0 <= doe < 146097 && d + 719468 == 146097 * era + doe
    ensures DateOfDay(d) == DateOfEraDay(era, doe)
  {
    assert (d + 719468) / 146097 == era && (d + 719468) % 146097 == doe;
  }

  lemma SuccWithinEra(d: int)
    requires (d + 719468) % 146097 < 146096
    ensures DateOfDay(d + 1) == NextDay(DateOfDay(d))
  {
    var era := (d + 719468) / 146097;
    var doe := (d + 719468) % 146097;
    EraOfNext(d);
    EraDayOf(d + 1, era, doe + 1);
    EraDayNext(era, doe);
  }

  lemma SuccAcrossEras(d: int)
    requires (d + 719468) % 146097 == 146096
    ensures DateOfDay(d + 1) == NextDay(DateOfDay(d))
  {
    var era := (d + 719468) / 146097;
    EraOfNext(d);
    EraDayOf(d + 1, era + 1, 0);
    EraDayWrap(era);
  }

  /** Day `d + 1` is the calendar successor of day `d`. */
  lemma DateOfDaySucc(d: int)
    ensures DateOfDay(d + 1) == NextDay(DateOfDay(d))
  {
    if (d + 719468) % 146097 < 146096 {
      SuccWithinEra(d);
    } else {
      SuccAcrossEras(d);
    }
  }

  /** Day `day` of month `mp` sits `MonthStart(mp) + day - 1` days into its year. */
  lemma MonthAt(leap: bool, mp: int, day: int)
    requires 0 <= mp <= 11 && 1 <= day <= MonthLength(mp, leap)
    ensures 0 <= MonthStart(mp) + day - 1 < SlotsFrom(MonthLengths(leap), 0, 12)
    ensures FindSlot(MonthLengths(leap), 12, 0, MonthStart(mp) + day - 1) == Slot(mp, day - 1)
  {
    YearOfMonths(leap);
    MonthsFrom(leap, 0);
    MonthsFrom(leap, mp);
    FindSlotAt(MonthLengths(leap), 12, 0, mp, day - 1, MonthStart(mp) + day - 1);
  }

  /** Day `doy` of year `yoe` sits `DaysBeforeYear(yoe) + doy` days into its era. */
  lemma YearAt(yoe: int, doy: int)
    requires 0 <= yoe <= 399 && 0 <= doy < YearLength(yoe)
    ensures 0 <= DaysBeforeYear(yoe) + doy < SlotsFrom(YearLength, 0, 400)
    ensures FindSlot(YearLength, 400, 0, DaysBeforeYear(yoe) + doy) == Slot(yoe, doy)
  {
    EraLength();
    YearsFrom(0);
    YearsFrom(yoe);
    FindSlotAt(YearLength, 400, 0, yoe, doy, DaysBeforeYear(yoe) + doy);
  }

  lemma MonthInYear(era: int, yoe: int, mp: int, day: int)
    requires 0 <= mp <= 11 && 1 <= day <= MonthLength(mp, IsLeapYear(yoe + 1))
    ensures 0 <= MonthStart(mp) + day - 1 < YearLength(yoe)
    ensures DateInEra(era, yoe, MonthStart(mp) + day - 1) == DateOfMonthSlot(era, yoe, Slot(mp, day - 1))
  {
    YearOfMonths(IsLeapYear(yoe + 1));
    MonthAt(IsLeapYear(yoe + 1), mp, day);
  }

  lemma YearInEra(era: int, yoe: int, doy: int)
    requires 0 <= yoe <= 399 && 0 <= doy < YearLength(yoe)
    ensures 0 <= DaysBeforeYear(yoe) + doy < 146097
    ensures DateOfEraDay(era, DaysBeforeYear(yoe) + doy) == DateInEra(era, yoe, doy)
  {
    EraLength();
    YearAt(yoe, doy);
  }

  /**
   * The day number of a date: day `day` of month `mp` (counted from March) of
   * year `yoe` of era `era` is day `DaysBeforeYear(yoe) + MonthStart(mp) + day - 1`
   * of that era.
   */
  lemma DateOfDayAt(d: int, era: int, yoe: int, mp: int, day: int)
    requires 0 <= yoe <= 399 && 0 <= mp <= 11 && 1 <= day <= MonthLength(mp, IsLeapYear(yoe + 1))
    requires d + 719468 == 146097 * era + DaysBeforeYear(yoe) + MonthStart(mp) + day - 1
    ensures DateOfDay(d) == DateOfMonthSlot(era, yoe, Slot(mp, day - 1))
  {
    var doy := MonthStart(mp) + day - 1;
    MonthInYear(era, yoe, mp, day);
    YearInEra(era, yoe, doy);
    EraDayOf(d, era, DaysBeforeYear(yoe) + doy);
  }

  /** Spot checks of the calendar conversion at dates the store's examples use. */
  lemma EpochDate()
    ensures DateOfDay(0) == Date(1970, 1, 1)
  {
    DateOfDayAt(0, 4, 369, 10, 1);
  }

  lemma LeapDayDate()
    ensures DateOfDay(11016) == Date(2000, 2, 29)
  {
    DateOfDayAt(11016, 4, 399, 11, 29);
  }

  lemma JuneFirstDate()
    ensures DateOfDay(19875) == Date(2024, 6, 1)
  {
    DateOfDayAt(19875, 5, 24, 3, 1);
  }

  lemma JuneLastDate()
    ensures DateOfDay(19904) == Date(2024, 6, 30)
  {
    DateOfDayAt(19904, 5, 24, 3, 30);
  }

  lemma JulyFirstDate()
    ensures DateOfDay(19905) == Date(2024, 7, 1)
  {
    DateOfDayAt(19905, 5, 24, 4, 1);
  }
}
