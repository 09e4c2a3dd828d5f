/** The timestamp of a report: seconds since 1970-01-01T00:00:00Z turned into a
    calendar date and a time of day, and printed as RFC 3339 has it. */
module CivilDate {
  import opened Prelude

  // ------------------------------------------------ the calendar, by its rules

  datatype Date = Date(year: int, month: int, day: int)

  predicate IsLeap(year: int) {
    year % 4 == 0 && (year % 100 != 0 || year % 400 == 0)
  }

  function DaysInMonth(year: int, month: int): int {
    if month == 2 then (if IsLeap(year) then 29 else 28)
    else if month == 4 || month == 6 || month == 9 || month == 11 then 30
    else 31
  }

  predicate ValidDate(d: Date) {
    1 <= d.month <= 12 && 1 <= d.day <= DaysInMonth(d.year, d.month)
  }

  function NextDay(d: Date): Date {
    if d.day < DaysInMonth(d.year, d.month) then d.(day := d.day + 1)
    else if d.month < 12 then Date(d.year, d.month + 1, 1)
    else Date(d.year + 1, 1, 1)
  }

  const EPOCH := Date(1970, 1, 1)

  /** The date reached by turning `n` pages of the calendar. */
  function AfterDays(n: nat): Date {
    if n == 0 then EPOCH else NextDay(AfterDays(n - 1))
  }

  // ------------------------------------------------------- the computation

  /** Day of the era on which March-based year `yoe` of the era begins. */
  function YearStart(yoe: int): int {
    365 * yoe + yoe / 4 - yoe / 100
  }

  function YearOfEra(doe: int): int {
    (doe - doe / 1460 + doe / 36524 - doe / 146096) / 365
  }

  /** Day of the March-based year on which its month `mp` begins. */
  function MonthStart(mp: int): int {
    (153 * mp + 2) / 5
  }

  function MonthOf(doy: int): int {
    (5 * doy + 2) / 153
  }

  /** Where day `z`, counted from 0000-03-01, falls. */
  function OfDay(z: int): Date {
    var doe := z % 146097;
    OfMarchYear(z / 146097, YearOfEra(doe), doe - YearStart(YearOfEra(doe)))
  }

  /** Civil date of day `days` since the epoch, as the formula has it. */
  function Civil(days: nat): Date {
    OfDay(days + 719468)
  }

  /** Day `doy` of the March-based year `yoe` of an era, in civil terms. */
  function OfMarchYear(era: int, yoe: int, doy: int): Date {
    var mp := MonthOf(doy);
    var d := doy - MonthStart(mp) + 1;
    var mo := if mp < 10 then mp + 3 else mp - 9;
    var y := yoe + era * 400 + if mo <= 2 then 1 else 0;
    Date(y, mo, d)
  }

  // ----------------------------------------------------------------- years

  /** Inside one century of the era: `q` is the leap-day correction for day `r` of
      century `c`, and `k` the year it leads to. */
  lemma YearOfCentury(c: int, r: int, q: int, k: int)
    requires 0 <= c <= 3 && 0 <= r < 36524
    requires 1460 * q <= 24 * c + r < 1460 * q + 1460
    requires 365 * k <= r - q < 365 * k + 365
    ensures 0 <= k <= 99
    ensures 365 * k + k / 4 <= r < 365 * (k + 1) + (k + 1) / 4 || (k == 99 && 365 * k + k / 4 <= r)
  {
    var j := k / 4;
    assert 4 * j <= k <= 4 * j + 3;
    assert q >= j;
    var l := (k + 1) / 4;
    assert 4 * l <= k + 1 <= 4 * l + 3;
    assert q <= l || k == 99;
  }

  /** The correction terms pick the right year of the era for each of its days. */
  lemma YearOfEraIsRight(doe: int)
    requires 0 <= doe < 146097
    ensures 0 <= YearOfEra(doe) <= 399
    ensures YearStart(YearOfEra(doe)) <= doe
    ensures YearOfEra(doe) < 399 ==> doe < YearStart(YearOfEra(doe) + 1)
  {
    if doe == 146096 {
      assert YearOfEra(doe) == 399;
    } else {
      var c := doe / 36524;
      var r := doe - 36524 * c;
      var q := (24 * c + r) / 1460;
      var k := (r - q) / 365;
      YearOfCentury(c, r, q, k);
      assert doe / 1460 == 25 * c + q;
      assert doe / 146096 == 0;
      assert doe - doe / 1460 + doe / 36524 == 36500 * c + r - q;
      assert YearOfEra(doe) == 100 * c + k;
      CenturyStart(c, k);
      if k < 99 {
        CenturyStart(c, k + 1);
      }
    }
  }

  lemma CenturyStart(c: int, k: int)
    requires 0 <= c <= 3 && 0 <= k <= 99
    ensures YearStart(100 * c + k) == 36524 * c + 365 * k + k / 4
    ensures c < 3 ==> YearStart(100 * c + 100) == 36524 * c + 36524
  {
    assert (100 * c + k) / 4 == 25 * c + k / 4;
    assert (100 * c + k) / 100 == c;
  }

  /** Only one year of the era holds a given day. */
  lemma YearIsUnique(doe: int, yoe: int)
    requires 0 <= doe < 146097 && 0 <= yoe <= 399
    requires YearStart(yoe) <= doe && (yoe < 399 ==> doe < YearStart(yoe + 1))
    ensures YearOfEra(doe) == yoe
  {
    YearOfEraIsRight(doe);
    var y := YearOfEra(doe);
    if y < yoe {
      YearsGrow(y + 1, yoe);
    } else if yoe < y {
      YearsGrow(yoe + 1, y);
    }
  }

  lemma YearsGrow(a: int, b: int)
    requires 0 <= a <= b
    ensures YearStart(a) <= YearStart(b)
  {
  }

  /** Days in March-based year `yoe` of an era: it ends with the February of the
      following civil year. */
  function YearLength(yoe: int): int {
    (if yoe == 399 then 146097 else YearStart(yoe + 1)) - YearStart(yoe)
  }

  lemma YearLengthIsLeap(era: int, yoe: int)
    requires 0 <= yoe <= 399
    ensures YearLength(yoe) == if IsLeap(yoe + 400 * era + 1) then 366 else 365
  {
    LeapRepeats(era, yoe + 1);
    LengthOfYear(yoe);
  }

  /** The rule for leap years has a period of 400. */
  lemma LeapRepeats(era: int, year: int)
    ensures IsLeap(year + 400 * era) <==> IsLeap(year)
  {
    Mod4(year, 100 * era);
    Mod100(year, 4 * era);
    Mod400(year, era);
  }

  lemma Mod4(a: int, k: int)
    ensures (a + 4 * k) % 4 == a % 4
  {
  }

  lemma Mod100(a: int, k: int)
    ensures (a + 100 * k) % 100 == a % 100
  {
  }

  lemma Mod400(a: int, k: int)
    ensures (a + 400 * k) % 400 == a % 400
  {
  }

  lemma LengthOfYear(yoe: int)
    requires 0 <= yoe <= 399
    ensures YearLength(yoe) == if IsLeap(yoe + 1) then 366 else 365
  {
    assert (yoe + 1) / 4 - yoe / 4 == if (yoe + 1) % 4 == 0 then 1 else 0;
    assert (yoe + 1) / 100 - yoe / 100 == if (yoe + 1) % 100 == 0 then 1 else 0;
  }

  // ---------------------------------------------------------------- months

  lemma MonthIsRight(doy: int)
    requires 0 <= doy <= 365
    ensures 0 <= MonthOf(doy) <= 11
    ensures MonthStart(MonthOf(doy)) <= doy
    ensures MonthOf(doy) < 11 ==> doy < MonthStart(MonthOf(doy) + 1)
  {
  }

  lemma MonthIsUnique(doy: int, mp: int)
    requires 0 <= doy <= 365 && 0 <= mp <= 11
    requires MonthStart(mp) <= doy && (mp < 11 ==> doy < MonthStart(mp + 1))
    ensures MonthOf(doy) == mp
  {
    MonthIsRight(doy);
  }

  /** The months of the table are as long as the calendar says, February apart. */
  lemma MonthLengths(mp: int, year: int)
    requires 0 <= mp <= 10
    ensures MonthStart(mp + 1) - MonthStart(mp)
      == DaysInMonth(year, if mp < 10 then mp + 3 else mp - 9)
  {
    if mp == 0 || mp == 1 || mp == 2 || mp == 3 || mp == 4 || mp == 5 {
    } else if mp == 6 || mp == 7 || mp == 8 || mp == 9 || mp == 10 {
    }
  }

  // ----------------------------------------------------------------- steps

  /** The next day of the same March-based year. */
  lemma DayStep(era: int, yoe: int, doy: int)
    requires 0 <= yoe <= 399 && 0 <= doy < YearLength(yoe) - 1
    ensures ValidDate(OfMarchYear(era, yoe, doy))
    ensures NextDay(OfMarchYear(era, yoe, doy)) == OfMarchYear(era, yoe, doy + 1)
  {
    YearLengthIsLeap(era, yoe);
    MonthIsRight(doy);
    var mp := MonthOf(doy);
    if mp < 11 {
      MonthLengths(mp, OfMarchYear(era, yoe, doy).year);
    }
    if mp < 11 && doy + 1 == MonthStart(mp + 1) {
      MonthIsUnique(doy + 1, mp + 1);
    } else {
      MonthIsUnique(doy + 1, mp);
    }
  }

  /** The last day of a March-based year is the last of February. */
  lemma YearStep(era: int, yoe: int)
    requires 0 <= yoe <= 399
    ensures ValidDate(OfMarchYear(era, yoe, YearLength(yoe) - 1))
    ensures NextDay(OfMarchYear(era, yoe, YearLength(yoe) - 1))
      == Date(yoe + 400 * era + 1, 3, 1)
  {
    YearLengthIsLeap(era, yoe);
    var doy := YearLength(yoe) - 1;
    MonthIsUnique(doy, 11);
  }

  ghost predicate Splits(z: int, era: int, yoe: int, doy: int) {
    0 <= yoe <= 399 && 0 <= doy < YearLength(yoe) && z == 146097 * era + YearStart(yoe) + doy
  }

  lemma OfDayIs(z: int, era: int, yoe: int, doy: int)
    requires Splits(z, era, yoe, doy)
    ensures OfDay(z) == OfMarchYear(era, yoe, doy)
  {
    var doe := YearStart(yoe) + doy;
    if yoe < 399 {
      YearsGrow(yoe + 1, 399);
    }
    assert 0 <= doe < 146097;
    assert z / 146097 == era && z % 146097 == doe;
    YearIsUnique(doe, yoe);
  }

  lemma DayNumber(z: int) returns (era: int, yoe: int, doy: int)
    ensures Splits(z, era, yoe, doy)
  {
    era := z / 146097;
    var doe := z % 146097;
    YearOfEraIsRight(doe);
    yoe := YearOfEra(doe);
    doy := doe - YearStart(yoe);
  }

  lemma DayAfter(z: int)
    ensures ValidDate(OfDay(z)) && NextDay(OfDay(z)) == OfDay(z + 1)
  {
    var era, yoe, doy := DayNumber(z);
    OfDayIs(z, era, yoe, doy);
    if doy < YearLength(yoe) - 1 {
      DayStep(era, yoe, doy);
      OfDayIs(z + 1, era, yoe, doy + 1);
    } else {
      YearStep(era, yoe);
      MarchFirst(z + 1, era, yoe);
    }
  }

  /** A March-based year is followed by the first of March. */
  lemma MarchFirst(z: int, era: int, yoe: int)
    requires 0 <= yoe <= 399
    requires z == 146097 * era + YearStart(yoe) + YearLength(yoe)
    ensures OfDay(z) == Date(yoe + 400 * era + 1, 3, 1)
  {
    if yoe < 399 {
      YearLengthIsLeap(era, yoe + 1);
      OfDayIs(z, era, yoe + 1, 0);
    } else {
      YearLengthIsLeap(era + 1, 0);
      OfDayIs(z, era + 1, 0, 0);
    }
  }

  /** Consecutive day numbers are consecutive days of the calendar. */
  lemma CivilStep(days: nat)
    ensures ValidDate(Civil(days)) && NextDay(Civil(days)) == Civil(days + 1)
  {
    DayAfter(days + 719468);
  }

  lemma CivilStart()
    ensures Civil(0) == EPOCH
  {
    OfDayIs(719468, 4, 369, 306);
    assert MonthOf(306) == 10;
  }

  /** The formula is the calendar: `n` days after 1970-01-01 for every `n`. */
  lemma {:induction false} CivilIsTheCalendar(n: nat)
    ensures Civil(n) == AfterDays(n) && ValidDate(Civil(n))
  {
    CivilStep(n);
    if n == 0 {
      CivilStart();
    } else {
      CivilIsTheCalendar(n - 1);
      CivilStep(n - 1);
    }
  }

  // ------------------------------------------------------------- and back

  function DaysInYear(year: int): int {
    if IsLeap(year) then 366 else 365
  }

  /** Days from the epoch to the first of January of `year`, year by year. */
  function DaysToYear(year: int): nat
    requires year >= 1970
  {
    if year == 1970 then 0 else DaysToYear(year - 1) + DaysInYear(year - 1)
  }

  /** Days from the first of January to the first of `month`, month by month. */
  function DaysToMonth(year: int, month: int): nat
    requires 1 <= month <= 12
  {
    if month == 1 then 0 else DaysToMonth(year, month - 1) + DaysInMonth(year, month - 1)
  }

  /** Days from the epoch to `d`, counted off on the calendar. */
  function DaysTo(d: Date): nat
    requires ValidDate(d) && d.year >= 1970
  {
    DaysToYear(d.year) + DaysToMonth(d.year, d.month) + d.day - 1
  }

  lemma YearIsTwelveMonths(year: int)
    ensures DaysToMonth(year, 12) + 31 == DaysInYear(year)
  {
    assert DaysToMonth(year, 2) == 31;
    assert DaysToMonth(year, 3) == 31 + DaysInMonth(year, 2);
    assert DaysToMonth(year, 4) == DaysToMonth(year, 3) + 31;
    assert DaysToMonth(year, 5) == DaysToMonth(year, 4) + 30;
    assert DaysToMonth(year, 6) == DaysToMonth(year, 5) + 31;
    assert DaysToMonth(year, 7) == DaysToMonth(year, 6) + 30;
    assert DaysToMonth(year, 8) == DaysToMonth(year, 7) + 31;
    assert DaysToMonth(year, 9) == DaysToMonth(year, 8) + 31;
    assert DaysToMonth(year, 10) == DaysToMonth(year, 9) + 30;
    assert DaysToMonth(year, 11) == DaysToMonth(year, 10) + 31;
  }

  lemma DaysToNext(d: Date)
    requires ValidDate(d) && d.year >= 1970
    ensures ValidDate(NextDay(d)) && DaysTo(NextDay(d)) == DaysTo(d) + 1
  {
    if d.day == DaysInMonth(d.year, d.month) && d.month == 12 {
      YearIsTwelveMonths(d.year);
    }
  }

  lemma {:induction false} DaysToAfter(n: nat)
    ensures ValidDate(AfterDays(n)) && AfterDays(n).year >= 1970
    ensures DaysTo(AfterDays(n)) == n
  {
    if n > 0 {
      DaysToAfter(n - 1);
      DaysToNext(AfterDays(n - 1));
    }
  }

  /** Counting the calendar recovers the day number. */
  lemma DaysToCivil(n: nat)
    ensures ValidDate(Civil(n)) && Civil(n).year >= 1970
    ensures DaysTo(Civil(n)) == n
  {
    CivilIsTheCalendar(n);
    DaysToAfter(n);
  }

  function PreviousDay(d: Date): Date {
    if d.day > 1 then d.(day := d.day - 1)
    else if d.month > 1 then Date(d.year, d.month - 1, DaysInMonth(d.year, d.month - 1))
    else Date(d.year - 1, 12, 31)
  }

  /** And every date of the calendar from the epoch on is reached: the formula is a
      bijection between day numbers and dates. */
  lemma {:induction false} CivilReaches(d: Date)
    requires ValidDate(d) && d.year >= 1970
    ensures Civil(DaysTo(d)) == d
    decreases DaysTo(d)
  {
    if d == EPOCH {
      CivilStart();
    } else {
      var p := PreviousDay(d);
      DaysToNext(p);
      assert NextDay(p) == d;
      CivilReaches(p);
      CivilStep(DaysTo(p));
    }
  }

  // ---------------------------------------------------------------- the text

  function Digit(n: int): char
    requires 0 <= n < 10
  {
    '0' + n as char
  }

  /** Decimal digits of `n`, at least `width` of them. */
  function Pad(n: nat, width: nat): string
    decreases n, width
  {
    if n == 0 && width == 0 then ""
    else Pad(n / 10, if width == 0 then 0 else width - 1) + [Digit(n % 10)]
  }

  function Text(date: Date, h: nat, m: nat, s: nat): string
    requires ValidDate(date) && date.year >= 0
  {
    Fields(Pad(date.year, 4), Pad(date.month, 2), Pad(date.day, 2), Pad(h, 2), Pad(m, 2), Pad(s, 2))
  }

  function Fields(year: string, month: string, day: string, h: string, m: string, s: string): string {
    year + "-" + month + "-" + day + "T" + h + ":" + m + ":" + s + "Z"
  }

  function Stamp(secs: nat): string {
    DaysToCivil(secs / 86400);
    Text(Civil(secs / 86400), secs % 86400 / 3600, secs % 3600 / 60, secs % 60)
  }

  /** Value of a string of decimal digits. */
  function Value(s: string): int {
    if s == "" then 0 else 10 * Value(s[..|s| - 1]) + (s[|s| - 1] as int - '0' as int)
  }

  lemma {:induction false} PadValue(n: nat, width: nat)
    ensures Value(Pad(n, width)) == n
    decreases n, width
  {
    if n != 0 || width != 0 {
      var width' := if width == 0 then 0 else width - 1;
      PadValue(n / 10, width');
      var s := Pad(n, width);
      assert s[..|s| - 1] == Pad(n / 10, width');
    }
  }

  lemma {:induction false} PadDigits(n: nat, width: nat)
    ensures Digits(Pad(n, width))
    decreases n, width
  {
    if n != 0 || width != 0 {
      PadDigits(n / 10, if width == 0 then 0 else width - 1);
    }
  }

  /** Digits are the padded form of their own value. */
  lemma {:induction false} PadOfValue(s: string)
    requires Digits(s)
    ensures Value(s) >= 0 && Pad(Value(s), |s|) == s
  {
    if s != "" {
      var front := s[..|s| - 1];
      PadOfValue(front);
      var last := s[|s| - 1];
      var d := last as int - '0' as int;
      assert Value(s) / 10 == Value(front) && Value(s) % 10 == d;
      assert Digit(d) == last;
      assert s == front + [last];
    }
  }

  lemma PadLengths(n: nat)
    ensures n < 100 ==> |Pad(n, 2)| == 2
    ensures |Pad(n, 4)| == 4 <==> n < 10000
  {
    var a, b, c, d := n / 10, n / 100, n / 1000, n / 10000;
    assert a / 10 == b && b / 10 == c && c / 10 == d;
    assert |Pad(n, 2)| == 1 + |Pad(a, 1)| && |Pad(a, 1)| == 1 + |Pad(b, 0)|;
    assert |Pad(n, 4)| == 1 + |Pad(a, 3)| && |Pad(a, 3)| == 1 + |Pad(b, 2)|;
    assert |Pad(b, 2)| == 1 + |Pad(c, 1)| && |Pad(c, 1)| == 1 + |Pad(d, 0)|;
    assert |Pad(d, 0)| == 0 <==> d == 0;
  }

  predicate Digits(s: string) {
    forall i :: 0 <= i < |s| ==> '0' <= s[i] <= '9'
  }

  /** The layout of a stamp: digits, with a separator at each of its places. */
  predicate Layout(t: string) {
    && |t| == 20
    && Digits(t[0..4]) && t[4] == '-' && Digits(t[5..7]) && t[7] == '-' && Digits(t[8..10]) && t[10] == 'T'
    && Digits(t[11..13]) && t[13] == ':' && Digits(t[14..16]) && t[16] == ':' && Digits(t[17..19])
    && t[19] == 'Z'
  }

  /** Read a stamp back. */
  function Parse(t: string): Option<nat> {
    if !Layout(t) then None
    else
      var date := Date(Value(t[0..4]), Value(t[5..7]), Value(t[8..10]));
      var h, m, s := Value(t[11..13]), Value(t[14..16]), Value(t[17..19]);
      if !ValidDate(date) || date.year < 1970 || !(0 <= h < 24 && 0 <= m < 60 && 0 <= s < 60) then None
      else Some(86400 * DaysTo(date) + 3600 * h + 60 * m + s)
  }

  /** The first second whose year no longer has four digits. */
  const YEAR_10000: nat := 253402300800

  lemma {:induction false} YearsInDays(year: int)
    requires year >= 1970
    ensures DaysToYear(year)
      == 365 * (year - 1970) + (year - 1) / 4 - (year - 1) / 100 + (year - 1) / 400 - 477
  {
    if year > 1970 {
      YearsInDays(year - 1);
      LeapCount(year - 1);
    }
  }

  lemma LeapCount(y: int)
    ensures y / 4 - (y - 1) / 4 == if y % 4 == 0 then 1 else 0
    ensures y / 100 - (y - 1) / 100 == if y % 100 == 0 then 1 else 0
    ensures y / 400 - (y - 1) / 400 == if y % 400 == 0 then 1 else 0
    ensures y % 400 == 0 ==> y % 100 == 0
    ensures y % 100 == 0 ==> y % 4 == 0
  {
  }

  lemma {:induction false} YearsAreOrdered(a: int, b: int)
    requires 1970 <= a <= b
    ensures DaysToYear(a) <= DaysToYear(b)
  {
    if a < b {
      YearsAreOrdered(a, b - 1);
    }
  }

  lemma FourDigitYears(d: Date)
    requires ValidDate(d) && d.year >= 1970
    ensures d.year <= 9999 <==> DaysTo(d) < YEAR_10000 / 86400
  {
    DaysToYear10000();
    WithinYear(d);
    if d.year <= 9999 {
      YearsAreOrdered(d.year + 1, 10000);
    } else {
      YearsAreOrdered(10000, d.year);
    }
  }

  lemma DaysToYear10000()
    ensures DaysToYear(10000) == YEAR_10000 / 86400
  {
    YearsInDays(10000);
  }

  lemma WithinYear(d: Date)
    requires ValidDate(d) && d.year >= 1970
    ensures DaysToYear(d.year) <= DaysTo(d) < DaysToYear(d.year + 1)
  {
    YearIsTwelveMonths(d.year);
    MonthsAreOrdered(d.year, d.month);
  }

  lemma {:induction false} MonthsAreOrdered(year: int, month: int)
    requires 1 <= month <= 12
    ensures DaysToMonth(year, month) + DaysInMonth(year, month) <= DaysToMonth(year, 12) + 31
    decreases 12 - month
  {
    if month < 12 {
      MonthsAreOrdered(year, month + 1);
    }
  }

  lemma FieldPositions(year: string, month: string, day: string, h: string, m: string, s: string)
    requires |month| == |day| == |h| == |m| == |s| == 2
    ensures |Fields(year, month, day, h, m, s)| == 16 + |year|
    ensures |year| == 4 ==>
      var t := Fields(year, month, day, h, m, s);
      && t[0..4] == year && t[5..7] == month && t[8..10] == day
      && t[11..13] == h && t[14..16] == m && t[17..19] == s
      && t[4] == t[7] == '-' && t[10] == 'T' && t[13] == t[16] == ':' && t[19] == 'Z'
  {
  }

  lemma ParseText(year: string, month: string, day: string, hour: string, min: string, sec: string,
                  date: Date, h: nat, m: nat, s: nat)
    requires |month| == |day| == |hour| == |min| == |sec| == 2 && |year| == 4
    requires ValidDate(date) && date.year >= 1970 && h < 24 && m < 60 && s < 60
    requires Value(year) == date.year && Value(month) == date.month && Value(day) == date.day
    requires Value(hour) == h && Value(min) == m && Value(sec) == s
    requires Digits(year) && Digits(month) && Digits(day) && Digits(hour) && Digits(min) && Digits(sec)
    ensures Parse(Fields(year, month, day, hour, min, sec))
      == Some(86400 * DaysTo(date) + 3600 * h + 60 * m + s)
  {
    FieldPositions(year, month, day, hour, min, sec);
    ParseFields(Fields(year, month, day, hour, min, sec), date, h, m, s);
  }

  lemma ParseFields(t: string, date: Date, h: nat, m: nat, s: nat)
    requires Layout(t) && ValidDate(date) && date.year >= 1970 && h < 24 && m < 60 && s < 60
    requires Value(t[0..4]) == date.year && Value(t[5..7]) == date.month && Value(t[8..10]) == date.day
    requires Value(t[11..13]) == h && Value(t[14..16]) == m && Value(t[17..19]) == s
    ensures Parse(t) == Some(86400 * DaysTo(date) + 3600 * h + 60 * m + s)
  {
    assert Date(Value(t[0..4]), Value(t[5..7]), Value(t[8..10])) == date;
  }

  lemma TwoDigits(n: nat)
    requires n < 100
    ensures |Pad(n, 2)| == 2 && Value(Pad(n, 2)) == n && Digits(Pad(n, 2))
  {
    PadLengths(n);
    PadValue(n, 2);
    PadDigits(n, 2);
  }

  lemma TextRoundTrip(date: Date, h: nat, m: nat, s: nat)
    requires ValidDate(date) && date.year >= 1970 && h < 24 && m < 60 && s < 60
    ensures |Text(date, h, m, s)| == 20 <==> date.year <= 9999
    ensures date.year <= 9999 ==>
      Parse(Text(date, h, m, s)) == Some(86400 * DaysTo(date) + 3600 * h + 60 * m + s)
  {
    PadLengths(date.year);
    PadValue(date.year, 4);
    PadDigits(date.year, 4);
    TwoDigits(date.month);
    TwoDigits(date.day);
    TwoDigits(h);
    TwoDigits(m);
    TwoDigits(s);
    var year, month, day := Pad(date.year, 4), Pad(date.month, 2), Pad(date.day, 2);
    FieldPositions(year, month, day, Pad(h, 2), Pad(m, 2), Pad(s, 2));
    if date.year <= 9999 {
      ParseText(year, month, day, Pad(h, 2), Pad(m, 2), Pad(s, 2), date, h, m, s);
    }
  }

  /** The stamp has the fixed-width form of RFC 3339 exactly until the year 10000,
      and until then reading it back gives the second it was made of. */
  lemma StampRoundTrip(secs: nat)
    ensures |Stamp(secs)| == 20 <==> secs < YEAR_10000
    ensures secs < YEAR_10000 ==> Parse(Stamp(secs)) == Some(secs)
  {
    var days := secs / 86400;
    DaysToCivil(days);
    TimeOfDay(secs);
    DaysBeforeYear10000(secs);
    var h, m, s := secs % 86400 / 3600, secs % 3600 / 60, secs % 60;
    assert Stamp(secs) == Text(Civil(days), h, m, s);
    DateTextRoundTrip(Civil(days), days, h, m, s);
  }

  lemma DateTextRoundTrip(date: Date, days: nat, h: nat, m: nat, s: nat)
    requires ValidDate(date) && date.year >= 1970 && days == DaysTo(date) && h < 24 && m < 60 && s < 60
    ensures |Text(date, h, m, s)| == 20 <==> days < YEAR_10000 / 86400
    ensures days < YEAR_10000 / 86400 ==>
      Parse(Text(date, h, m, s)) == Some(86400 * days + 3600 * h + 60 * m + s)
  {
    FourDigitYears(date);
    TextRoundTrip(date, h, m, s);
  }

  lemma DaysBeforeYear10000(secs: nat)
    ensures secs < YEAR_10000 <==> secs / 86400 < YEAR_10000 / 86400
  {
  }

  lemma TimeOfDay(secs: nat)
    ensures secs == 86400 * (secs / 86400) + 3600 * (secs % 86400 / 3600) + 60 * (secs % 3600 / 60)
      + secs % 60
    ensures secs % 86400 / 3600 < 24 && secs % 3600 / 60 < 60
  {
    var days, rest := secs / 86400, secs % 86400;
    var h := rest / 3600;
    assert rest % 3600 == secs % 3600;
    assert secs % 3600 % 60 == secs % 60;
  }

  lemma SplitSeconds(days: nat, h: nat, m: nat, s: nat)
    requires h < 24 && m < 60 && s < 60
    ensures var secs := 86400 * days + 3600 * h + 60 * m + s;
      && secs / 86400 == days && secs % 86400 / 3600 == h && secs % 3600 / 60 == m && secs % 60 == s
  {
    var rest := 60 * m + s;
    DropMinutes(1440 * days + 60 * h + m, s);
    DropHours(24 * days + h, rest);
    DropDays(days, 3600 * h + rest);
    DropHours(h, rest);
    DropMinutes(m, s);
  }

  lemma DropDays(days: nat, rest: nat)
    requires rest < 86400
    ensures (86400 * days + rest) / 86400 == days && (86400 * days + rest) % 86400 == rest
  {
  }

  lemma DropHours(hours: nat, rest: nat)
    requires rest < 3600
    ensures (3600 * hours + rest) / 3600 == hours && (3600 * hours + rest) % 3600 == rest
  {
  }

  lemma DropMinutes(minutes: nat, rest: nat)
    requires rest < 60
    ensures (60 * minutes + rest) / 60 == minutes && (60 * minutes + rest) % 60 == rest
  {
  }

  lemma FieldsOf(t: string)
    requires Layout(t)
    ensures t == Fields(t[0..4], t[5..7], t[8..10], t[11..13], t[14..16], t[17..19])
  {
    assert t == t[0..4] + [t[4]] + t[5..7] + [t[7]] + t[8..10] + [t[10]] + t[11..13] + [t[13]]
                + t[14..16] + [t[16]] + t[17..19] + [t[19]];
  }

  /** The stamps of the seconds before the year 10000 are all the texts that read as
      a second at all: no other text reads as the same one. */
  lemma ReadIsStamp(t: string)
    requires Parse(t).Some?
    ensures Stamp(Parse(t).value) == t
  {
    var date := Date(Value(t[0..4]), Value(t[5..7]), Value(t[8..10]));
    var h, m, s := Value(t[11..13]), Value(t[14..16]), Value(t[17..19]);
    SplitSeconds(DaysTo(date), h, m, s);
    CivilReaches(date);
    PadOfValue(t[0..4]);
    PadOfValue(t[5..7]);
    PadOfValue(t[8..10]);
    PadOfValue(t[11..13]);
    PadOfValue(t[14..16]);
    PadOfValue(t[17..19]);
    FieldsOf(t);
  }
}
