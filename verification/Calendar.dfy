/** The proleptic Gregorian calendar (section 3.2.1 of ISO 8601:2004) and the
    split of a timestamp into day and time of day. */
module Calendar {
  import opened Options
  import opened Arithmetic

  const INT32_MAX: int := 0x7fff_ffff
  const INT64_MAX: int := 0x7fff_ffff_ffff_ffff
  const NS_PER_DAY: int := 86400000000000

  type i32 = x: int | -0x8000_0000 <= x < 0x8000_0000
  type i64 = x: int | -0x8000_0000_0000_0000 <= x < 0x8000_0000_0000_0000

  datatype Date = Date(year: int, month: int, day: int)

  // The calendar by its own rules.

  predicate Leap(year: int) {
    (year % 4 == 0 && year % 100 != 0) || year % 400 == 0
  }

  function MonthLength(year: int, month: int): int {
    if month == 2 then if Leap(year) then 29 else 28
    else if month in {4, 6, 9, 11} then 30
    else 31
  }

  /** A date from 0001-01-01 on. */
  predicate Valid(t: Date) {
    1 <= t.year && 1 <= t.month <= 12 && 1 <= t.day <= MonthLength(t.year, t.month)
  }

  function NextDay(t: Date): Date {
    if t.day < MonthLength(t.year, t.month) then t.(day := t.day + 1)
    else if t.month < 12 then Date(t.year, t.month + 1, 1)
    else Date(t.year + 1, 1, 1)
  }

  /** The date `k` days after 0001-01-01. */
  function Nth(k: nat): Date {
    if k == 0 then Date(1, 1, 1) else NextDay(Nth(k - 1))
  }

  // The tables and formulas that count days.

  const COMMON: seq<int> := [0, 31, 59, 90, 120, 151, 181, 212, 243, 273, 304, 334, 365]
  const LEAP: seq<int> := [0, 31, 60, 91, 121, 152, 182, 213, 244, 274, 305, 335, 366]

  function MonthDays(leap: bool, mid: nat): int
    requires mid <= 12
  {
    if leap then LEAP[mid] else COMMON[mid]
  }

  /** Division as C has it, towards zero. */
  function CDiv(a: int, b: int): int
    requires b > 0
  {
    if a >= 0 then a / b else -(-a / b)
  }

  function CMod(a: int, b: int): int
    requires b > 0
  {
    a - CDiv(a, b) * b
  }

  function Wrap32(x: int): i32 {
    (x + 0x8000_0000) % 0x1_0000_0000 - 0x8000_0000
  }

  /** Days in the first `n` years. */
  function Years(n: int): int {
    n * 365 + CDiv(n, 4) - CDiv(n, 100) + CDiv(n, 400)
  }

  function YearsByDays(n: int): i32 {
    Wrap32(Years(n))
  }

  const EPOCH: int := 730119

  lemma EpochIs()
    ensures YearsByDays(2000 - 1) == EPOCH
  {
  }

  /** The day number of a date, 0001-01-01 being 0. */
  function DayOf(t: Date): int
    requires 1 <= t.month <= 13
  {
    Years(t.year - 1) + MonthDays(Leap(t.year), t.month - 1) + t.day - 1
  }

  lemma DivNext(n: nat, b: nat)
    requires b > 0
    ensures (n + 1) / b == n / b + if (n + 1) % b == 0 then 1 else 0
  {
    var q, r := n / b, n % b;
    assert n + 1 == q * b + (r + 1);
    if r + 1 == b {
      assert n + 1 == (q + 1) * b;
      DivUnique(n + 1, b, q + 1, 0);
    } else {
      DivUnique(n + 1, b, q, r + 1);
    }
  }

  lemma YearLength(n: nat)
    ensures Years(n + 1) == Years(n) + MonthDays(Leap(n + 1), 12)
  {
    DivNext(n, 4);
    DivNext(n, 100);
    DivNext(n, 400);
    LeapRules(n + 1);
    YearDays(Leap(n + 1));
    hide MonthDays;
  }

  lemma LeapRules(n: nat)
    ensures n % 400 == 0 ==> n % 100 == 0
    ensures n % 100 == 0 ==> n % 4 == 0
  {
    if n % 400 == 0 {
      DivUnique(n, 100, 4 * (n / 400), 0);
    }
    if n % 100 == 0 {
      DivUnique(n, 4, 25 * (n / 100), 0);
    }
  }

  lemma YearDays(leap: bool)
    ensures MonthDays(leap, 12) == if leap then 366 else 365
  {
  }

  lemma MonthStep(year: int, month: int)
    requires 1 <= month <= 12
    ensures MonthDays(Leap(year), month) == MonthDays(Leap(year), month - 1) + MonthLength(year, month)
  {
  }

  /** The day number grows by one from each date to the next. */
  lemma NextDayIsNext(t: Date)
    requires Valid(t)
    ensures Valid(NextDay(t)) && DayOf(NextDay(t)) == DayOf(t) + 1
  {
    MonthStep(t.year, t.month);
    YearLength(t.year - 1);
    hide Years, MonthDays;
    MonthZero(Leap(t.year + 1));
  }

  lemma MonthZero(leap: bool)
    ensures MonthDays(leap, 0) == 0
  {
  }

  lemma {:induction false} NthIsNth(k: nat)
    ensures Valid(Nth(k)) && DayOf(Nth(k)) == k
  {
    if k > 0 {
      NthIsNth(k - 1);
      NextDayIsNext(Nth(k - 1));
    }
  }

  lemma {:induction false} YearsGrow(m: nat, n: nat)
    requires m < n
    ensures Years(m + 1) <= Years(n)
    decreases n - m
  {
    if m + 1 < n {
      YearsGrow(m, n - 1);
      YearLength(n - 1);
    }
  }

  lemma MonthsGrow(leap: bool, m: nat, n: nat)
    requires m < n <= 12
    ensures MonthDays(leap, m + 1) <= MonthDays(leap, n)
  {
  }

  lemma InYear(t: Date)
    requires Valid(t)
    ensures Years(t.year - 1) <= DayOf(t) < Years(t.year)
    ensures MonthDays(Leap(t.year), t.month - 1) <= DayOf(t) - Years(t.year - 1) < MonthDays(Leap(t.year), t.month)
  {
    MonthStep(t.year, t.month);
    YearLength(t.year - 1);
    hide Years;
  }

  predicate Earlier(t: Date, u: Date) {
    t.year < u.year || (t.year == u.year && (t.month < u.month || (t.month == u.month && t.day < u.day)))
  }

  lemma DaysInOrder(t: Date, u: Date)
    requires Valid(t) && Valid(u) && Earlier(t, u)
    ensures DayOf(t) < DayOf(u)
  {
    InYear(t);
    InYear(u);
    if t.year < u.year {
      YearsGrow(t.year - 1, u.year - 1);
    } else if t.month < u.month {
      MonthsGrow(Leap(t.year), t.month - 1, u.month - 1);
    }
    hide Years, MonthDays;
  }

  /** No two dates have the same day number. */
  lemma SameDay(t: Date, u: Date)
    requires Valid(t) && Valid(u) && DayOf(t) == DayOf(u)
    ensures t == u
  {
    hide DayOf;
    if Earlier(t, u) {
      DaysInOrder(t, u);
    } else if Earlier(u, t) {
      DaysInOrder(u, t);
    }
  }

  // Decoding.

  function Trunc(x: real): int {
    if x >= 0.0 then x.Floor else -(-x).Floor
  }

  /** A computed quotient `offset / 365.2425`, not quite exact. */
  predicate CloseTo(approx: real, offset: int) {
    -0.000001 <= approx - offset as real / 365.2425 <= 0.000001
  }

  /** The quotient rounded half away from zero. */
  function Estimate(approx: real): int {
    Trunc(if approx >= 0.0 then approx + 0.5 else approx - 0.5)
  }

  lemma EstimateNear(approx: real, offset: int)
    requires CloseTo(approx, offset)
    ensures -183 * 10000 <= 3652425 * Estimate(approx) - 10000 * offset <= 183 * 10000
  {
    var k := Estimate(approx);
    assert -0.501 <= k as real - offset as real / 365.2425 <= 0.501;
    assert k as real * 365.2425 - offset as real <= 183.0;
    assert k as real * 365.2425 - offset as real >= -183.0;
  }

  lemma YearsNear(n: nat)
    ensures 3652425 * n - 20000 < 10000 * Years(n) < 3652425 * n + 10000
  {
    assert n - 3 <= 4 * (n / 4) <= n && n - 99 <= 100 * (n / 100) <= n && n - 399 <= 400 * (n / 400) <= n;
  }

  /** The estimate is the year or the one after it: correcting it once is enough. */
  lemma OneCorrection(approx: real, offset: nat)
    requires CloseTo(approx, offset)
    ensures
      var k := Estimate(approx);
      k >= 0 && Years(k - 1) <= offset < Years(k + 1) && (Years(k) > offset ==> k > 0)
  {
    var k := Estimate(approx);
    EstimateNear(approx, offset);
    YearsNear(k);
    YearsNear(k + 1);
    if k > 0 {
      YearsNear(k - 1);
    }
    hide Estimate;
  }

  function Offset(days: i32): i32 {
    Wrap32(days + EPOCH)
  }

  /** The month scan from the end of the year down. */
  method MonthOf(leap: bool, rem: int) returns (mid: nat)
    ensures mid < 12
    ensures 0 <= rem < MonthDays(leap, 12) ==> MonthDays(leap, mid) <= rem < MonthDays(leap, mid + 1)
  {
    mid := 12;
    while mid > 0
      invariant mid <= 12
      invariant rem >= 0 ==> forall k :: mid < k <= 12 ==> rem < MonthDays(leap, k)
    {
      if MonthDays(leap, mid) != 0 && CDiv(rem, MonthDays(leap, mid)) != 0 {
        break;
      }
      mid := mid - 1;
    }
    if mid == 12 {
      mid := 0;
    }
  }

  lemma WrapUnique(x: int, y: i32)
    ensures Wrap32(x) == y <==> (x - y) % 0x1_0000_0000 == 0
  {
  }

  /** An inner wrap does not matter. */
  lemma WrapSum(x: int, y: int)
    ensures Wrap32(x + Wrap32(y)) == Wrap32(x + y)
  {
  }

  /** The last complete year whose days a signed 32-bit count can hold. */
  const LAST_YEAR: int := 5879610

  lemma WrapFits(x: int)
    requires -0x8000_0000 <= x < 0x8000_0000
    ensures Wrap32(x) == x
  {
  }

  lemma WithinRange(n: nat)
    requires n <= LAST_YEAR
    ensures 0 <= YearsByDays(n) == Years(n) <= Years(LAST_YEAR) <= INT32_MAX
  {
    YearsNear(n);
    if n < LAST_YEAR {
      YearsGrow(n, LAST_YEAR);
      YearLength(n);
    }
    hide Wrap32;
    WrapFits(Years(n));
  }

  lemma AfterLastYear(n: nat)
    ensures n > LAST_YEAR ==> Years(n) >= Years(LAST_YEAR + 1) > INT32_MAX
  {
    if n > LAST_YEAR {
      YearsGrow(LAST_YEAR, n);
    }
  }

  lemma WithinLastYear(n: nat)
    requires Years(n) <= INT32_MAX
    ensures n <= LAST_YEAR
  {
    AfterLastYear(n);
    hide Years;
  }

  /** The last day whose estimate is not rounded up past the last year: 3 July 5879611. */
  const LAST_DAY: int := 2147483638

  lemma EstimateFits(approx: real, offset: int)
    requires CloseTo(approx, offset) && 0 <= offset <= LAST_DAY
    ensures Estimate(approx) <= LAST_YEAR
  {
    assert offset as real / 365.2425 <= 5879610.4999;
  }

  /** Behind that the estimate is one year too large, its days wrap, and it is not corrected. */
  lemma EstimateTooLarge(approx: real, offset: int)
    requires CloseTo(approx, offset) && LAST_DAY < offset <= INT32_MAX
    ensures Estimate(approx) == LAST_YEAR + 1 && YearsByDays(LAST_YEAR + 1) < 0
    ensures Wrap32(offset - YearsByDays(LAST_YEAR + 1)) < -1
  {
    assert 5879610.501 <= offset as real / 365.2425 <= 5879611.1;
  }

  lemma MonthDaysFromZero(leap: bool, mid: nat)
    requires mid <= 12
    ensures MonthDays(leap, mid) >= 0
  {
  }

  /** A year and what remains of it make up the date. */
  lemma ComposeDate(years: nat, rem: nat, mid: nat)
    requires mid < 12 && MonthDays(Leap(years + 1), mid) <= rem < MonthDays(Leap(years + 1), mid + 1)
    ensures
      var t := Date(years + 1, 1 + mid, 1 + rem - MonthDays(Leap(years + 1), mid));
      Valid(t) && DayOf(t) == Years(years) + rem
  {
    hide Years;
    MonthStep(years + 1, 1 + mid);
  }

  /** Before 0001-01-01 the estimate stays below the first year. */
  lemma BeforeYearOne(approx: real, offset: int)
    requires CloseTo(approx, offset) && -INT32_MAX - 1 <= offset < 0
    ensures -LAST_YEAR - 1 <= Estimate(approx) && (Estimate(approx) < 0 || (Estimate(approx) == 0 && YearsByDays(0) == 0))
  {
    EstimateNear(approx, offset);
  }

  /** How many years before the first one a date lies. */
  function YearsBefore(t: Date): int {
    1 - t.year
  }

  function DayInYear(t: Date): int
    requires 1 <= t.month <= 13
  {
    MonthDays(Leap(t.year), t.month - 1) + t.day - 1
  }

  /** From 0001-01-01 to `LAST_DAY` this is the date of the day, whatever the error
      of the division was; before and behind that it is none. */
  method DateToYmd(days: i32, approx: real) returns (t: Date)
    requires CloseTo(approx, Offset(days))
    ensures 0 <= Offset(days) <= LAST_DAY ==> t == Nth(Offset(days))
    ensures Valid(t) <==> 0 <= Offset(days) <= LAST_DAY
    ensures Offset(days) > LAST_DAY ==> t.year == LAST_YEAR + 2 && t.day < 0
    ensures 1 <= t.month <= 12 && if Offset(days) >= 0 then t.year >= 1 else 0 < YearsBefore(t) <= LAST_YEAR + 2
    ensures DayInYear(t) == Wrap32(Offset(days) - YearsByDays(t.year - 1))
  {
    hide Years, Wrap32, YearsByDays, MonthDays, Estimate, Leap, Nth, MonthLength;
    var offset := Offset(days);
    var years: int := Estimate(approx);
    if 0 <= offset <= LAST_DAY {
      YearsEstimated(approx, offset);
    } else if offset < 0 {
      BeforeYearOne(approx, offset);
    } else {
      EstimateTooLarge(approx, offset);
    }
    if YearsByDays(years) > offset {
      years := years - 1;
    }
    var rem := Wrap32(offset - YearsByDays(years));
    var leap := Leap(years + 1);
    var mid := MonthOf(leap, rem);
    t := Date(years + 1, 1 + mid, 1 + rem - MonthDays(leap, mid));
    if 0 <= offset <= LAST_DAY {
      YearLength(years);
      WrapFits(rem);
      ComposeDate(years, rem, mid);
      NthIsNth(offset);
      SameDay(t, Nth(offset));
    } else {
      MonthDaysFromZero(leap, mid);
    }
  }

  /** The corrected estimate is the number of complete years before the day. */
  lemma YearsEstimated(approx: real, offset: int)
    requires CloseTo(approx, offset) && 0 <= offset <= LAST_DAY
    ensures
      var k := Estimate(approx);
      var years := if YearsByDays(k) > offset then k - 1 else k;
      && years >= 0 && YearsByDays(years) == Years(years) <= offset < Years(years + 1)
      && Wrap32(offset - YearsByDays(years)) == offset - Years(years)
  {
    hide Years, Wrap32, YearsByDays, Estimate;
    var k := Estimate(approx);
    OneCorrection(approx, offset);
    EstimateFits(approx, offset);
    WithinRange(k);
    if k > 0 {
      WithinRange(k - 1);
    }
    var years := if YearsByDays(k) > offset then k - 1 else k;
    WrapFits(offset - Years(years));
  }

  function YmdToDate(year: int, month: int, day: int): i32
    requires month <= 13
  {
    var yy := if year > 0 then year - 1 else 0;
    var mm := if month > 0 then month - 1 else 0;
    Wrap32(YearsByDays(yy) - YearsByDays(2000 - 1) + MonthDays(Leap(year), mm) + day - 1)
  }

  /** Encoding gives the days since 2000-01-01. */
  lemma EncodeCounts(t: Date)
    requires Valid(t) && DayOf(t) <= INT32_MAX
    ensures YmdToDate(t.year, t.month, t.day) == DayOf(t) - EPOCH
    ensures Offset(YmdToDate(t.year, t.month, t.day)) == DayOf(t)
  {
    hide Years, YearsByDays, MonthDays, Leap, Wrap32, MonthLength;
    InYear(t);
    WithinLastYear(t.year - 1);
    WithinRange(t.year - 1);
    EpochIs();
    WrapFits(DayOf(t) - EPOCH);
    WrapFits(DayOf(t));
  }

  /** Decoding undoes encoding, for every date up to `LAST_DAY` and for no other. */
  method EncodeThenDecode(t: Date, approx: real) returns (u: Date)
    requires Valid(t)
    requires CloseTo(approx, Offset(YmdToDate(t.year, t.month, t.day)))
    ensures u == t <==> DayOf(t) <= LAST_DAY
  {
    hide Years, Wrap32, YearsByDays, MonthDays, Leap, Nth, MonthLength, Valid, DayOf, Offset, YmdToDate;
    ValidParts(t);
    var days := YmdToDate(t.year, t.month, t.day);
    u := DateToYmd(days, approx);
    if DayOf(t) <= LAST_DAY {
      EncodeCounts(t);
      NotBeforeTheFirst(t);
      NthIsNth(DayOf(t));
      SameDay(u, t);
    } else if u == t {
      NthIsNth(Offset(days));
    }
  }

  /** Years before the first are negative in days, also wrapped. */
  lemma YearsBeforeFirst(n: int)
    requires 0 < n <= LAST_YEAR + 2
    ensures YearsByDays(-n) != 0
  {
    assert Years(-n) == -Years(n);
    YearsNear(n);
  }

  /** What encoding makes of a decoded date. */
  lemma EncodeDecoded(t: Date, offset: i32)
    requires 1 <= t.month <= 12 && DayInYear(t) == Wrap32(offset - YearsByDays(t.year - 1))
    ensures YmdToDate(t.year, t.month, t.day) ==
            Wrap32(offset - EPOCH - if t.year > 0 then 0 else YearsByDays(t.year - 1))
  {
    hide Years, YearsByDays, MonthDays, Leap, Wrap32;
    EpochIs();
    var yy := if t.year > 0 then t.year - 1 else 0;
    YearsOfNone();
    WrapSum(YearsByDays(yy) - EPOCH, offset - YearsByDays(t.year - 1));
  }

  lemma YearsOfNone()
    ensures YearsByDays(0) == 0
  {
  }

  lemma OffsetBack(days: i32, y: i32)
    ensures Wrap32(Offset(days) - EPOCH - y) == days <==> y == 0
  {
    WrapSum(-EPOCH - y, days + EPOCH);
    WrapUnique(days - y, days);
  }

  /** Encoding undoes decoding for every day from 0001-01-01 on, also behind
      `LAST_DAY`, and for none before that. */
  method DecodeThenEncode(days: i32, approx: real) returns (back: i32)
    requires CloseTo(approx, Offset(days))
    ensures back == days <==> 0 <= Offset(days)
  {
    hide Years, Wrap32, YearsByDays, MonthDays, Leap, Nth, MonthLength, Valid, DayInYear, Offset, YmdToDate;
    var t := DateToYmd(days, approx);
    EncodeDecoded(t, Offset(days));
    if Offset(days) >= 0 {
      OffsetBack(days, 0);
    } else {
      YearsBeforeFirst(YearsBefore(t));
      OffsetBack(days, YearsByDays(t.year - 1));
    }
    back := YmdToDate(t.year, t.month, t.day);
  }

  lemma NotBeforeTheFirst(t: Date)
    requires Valid(t)
    ensures DayOf(t) >= 0
  {
    InYear(t);
    YearsNear(t.year - 1);
  }

  lemma ValidParts(t: Date)
    requires Valid(t)
    ensures 1 <= t.year && 1 <= t.month <= 12
  {
  }

  /** The day the count starts at, and days around leap days and turns of centuries. */
  lemma KnownDays()
    ensures YmdToDate(2000, 1, 1) == 0 && YmdToDate(1970, 1, 1) == -10957 && YmdToDate(1, 1, 1) == -730119
    ensures YmdToDate(2000, 2, 29) == 59 && YmdToDate(2000, 3, 1) == 60
    ensures YmdToDate(1900, 2, 28) == -36466 && YmdToDate(1900, 3, 1) == -36465
    ensures YmdToDate(2024, 2, 29) == 8825 && YmdToDate(2024, 3, 1) == 8826
  {
    hide YmdToDate, Years, YearsByDays, Wrap32, Offset;
    KnownYears();
    EncodeCounts(Date(2000, 1, 1));
    EncodeCounts(Date(1970, 1, 1));
    EncodeCounts(Date(1, 1, 1));
    EncodeCounts(Date(2000, 2, 29));
    EncodeCounts(Date(2000, 3, 1));
    EncodeCounts(Date(1900, 2, 28));
    EncodeCounts(Date(1900, 3, 1));
    EncodeCounts(Date(2024, 2, 29));
    EncodeCounts(Date(2024, 3, 1));
  }

  lemma KnownYears()
    ensures Years(0) == 0 && Years(1899) == 693595 && Years(1969) == 719162 && Years(1999) == 730119 && Years(2023) == 738885
  {
  }

  lemma DayHasNanoseconds()
    ensures NS_PER_DAY == 24 * 60 * 60 * 1_000_000_000
  {
  }

  // Timestamps: nanoseconds since the epoch, apart and together.

  function DaysFloor(ns: i64): int {
    var q := CDiv(ns, NS_PER_DAY);
    if ns - q * NS_PER_DAY < 0 then q - 1 else q
  }

  function NsInDay(ns: i64): int {
    var r := CMod(ns, NS_PER_DAY);
    if r < 0 then r + NS_PER_DAY else r
  }

  /** The exact sum if it is a timestamp; the smallest 64-bit number is not one. */
  function ComposeChecked(days: i64, tod: i64): (r: Option<i64>)
    ensures r.Some? ==> -INT64_MAX <= r.value
  {
    var ns := days * NS_PER_DAY + tod;
    if ns > INT64_MAX || ns < -INT64_MAX then None else Some(ns)
  }

  /** The parts are the day at or before the instant and the time since. */
  lemma SplitFloors(ns: i64)
    ensures ns == DaysFloor(ns) * NS_PER_DAY + NsInDay(ns)
    ensures 0 <= NsInDay(ns) < NS_PER_DAY
  {
    if ns < 0 {
      var x: int := ns;
      assert -x == (-x / NS_PER_DAY) * NS_PER_DAY + -x % NS_PER_DAY;
    }
  }

  /** Splitting and composing undo each other, on every timestamp and only on those. */
  lemma SplitThenCompose(ns: i64)
    ensures ComposeChecked(DaysFloor(ns), NsInDay(ns)) == if ns == -INT64_MAX - 1 then None else Some(ns)
  {
    SplitFloors(ns);
  }

  lemma ComposeThenSplit(days: i64, tod: i64)
    requires 0 <= tod < NS_PER_DAY && ComposeChecked(days, tod).Some?
    ensures
      var ns := ComposeChecked(days, tod).value;
      DaysFloor(ns) == days && NsInDay(ns) == tod
  {
    var ns := ComposeChecked(days, tod).value;
    SplitFloors(ns);
    DivUnique(ns, NS_PER_DAY, days, tod);
    DivUnique(ns, NS_PER_DAY, DaysFloor(ns), NsInDay(ns));
  }
}
