/**
 The proleptic Gregorian calendar of auth.rs. The reference is stepping one day at a time
 with the month lengths of section 5.7 of RFC 3339 and the leap-year rule of its Appendix C;
 the code uses closed formulas with constant divisions.
 */
module Calendar {
  import opened Text

  datatype Date = Date(year: int, month: int, day: int)

  // ----- Stepping day by day

  predicate IsLeap(year: int) {
    year % 4 == 0 && (year % 100 != 0 || year % 400 == 0)
  }

  function DaysInMonth(year: int, month: int): int {
    if month == 2 then (if IsLeap(year) then 29 else 28)
    else if month == 4 || month == 6 || month == 9 || month == 11 then 30
    else 31
  }

  predicate IsDate(d: Date) {
    1 <= d.month <= 12 && 1 <= d.day <= DaysInMonth(d.year, d.month)
  }

  const EPOCH := Date(1970, 1, 1)

  function NextDay(d: Date): Date {
    if d.day < DaysInMonth(d.year, d.month) then d.(day := d.day + 1)
    else if d.month < 12 then Date(d.year, d.month + 1, 1)
    else Date(d.year + 1, 1, 1)
  }

  function PreviousDay(d: Date): Date {
    if d.day > 1 then d.(day := d.day - 1)
    else if d.month > 1 then Date(d.year, d.month - 1, DaysInMonth(d.year, d.month - 1))
    else Date(d.year - 1, 12, 31)
  }

  /** The date n days after the epoch, or before it when n is negative. */
  function Stepped(n: int): Date
    decreases if n < 0 then -n else n
  {
    if n == 0 then EPOCH
    else if n > 0 then NextDay(Stepped(n - 1))
    else PreviousDay(Stepped(n + 1))
  }

  // ----- The closed formulas

  /** Integer division as Rust computes it, toward zero. */
  function TruncDiv(a: int, b: int): int
    requires b > 0
  {
    if a >= 0 then a / b else -(-a / b)
  }

  const I32_LIMIT := 0x8000_0000

  /** The cast `as i32`. */
  function WrapI32(n: int): int {
    (n + I32_LIMIT) % (2 * I32_LIMIT) - I32_LIMIT
  }

  function YearOfEra(dayOfEra: int): int {
    (dayOfEra - dayOfEra / 1460 + dayOfEra / 36524 - dayOfEra / 146096) / 365
  }

  /** Days of the era before year y of it, years starting in March. */
  function YearStart(y: int): int {
    365 * y + y / 4 - y / 100
  }

  /** civil_from_days before the cast of the year. */
  function CivilMath(days0: int): Date {
    var days := days0 + 719468;
    var era := TruncDiv(if days >= 0 then days else days - 146096, 146097);
    var dayOfEra := days - era * 146097;
    var yearOfEra := YearOfEra(dayOfEra);
    DateInYear(yearOfEra + era * 400, dayOfEra - YearStart(yearOfEra))
  }

  /** The second half of civil_from_days, on a March-based year. */
  function DateInYear(year: int, dayOfYear: int): Date {
    var monthPrime := (5 * dayOfYear + 2) / 153;
    var day := dayOfYear - (153 * monthPrime + 2) / 5 + 1;
    var month := monthPrime + if monthPrime < 10 then 3 else -9;
    Date(year + (if month <= 2 then 1 else 0), month, day)
  }

  /** civil_from_days. */
  function CivilFromDays(days: int): Date {
    var d := CivilMath(days);
    d.(year := WrapI32(d.year))
  }

  /** days_from_civil. */
  function DaysFromCivil(year0: int, month: int, day: int): Option<int> {
    var year := year0 - if month <= 2 then 1 else 0;
    var era := TruncDiv(if year >= 0 then year else year - 399, 400);
    var yearOfEra := year - era * 400;
    var monthPrime := month + if month > 2 then -3 else 9;
    var dayOfYear := (153 * monthPrime + 2) / 5 + day - 1;
    var dayOfEra := YearStart(yearOfEra) + dayOfYear;
    if dayOfEra >= 146097 then None else Some(era * 146097 + dayOfEra - 719468)
  }

  // ----- The era

  /** Whether the March-based year y of an era has 366 days. */
  predicate LongYear(y: int) {
    (y + 1) % 4 == 0 && ((y + 1) % 100 != 0 || (y + 1) % 400 == 0)
  }

  function YearLength(y: int): int {
    if LongYear(y) then 366 else 365
  }

  /** The adjusted truncating divisions are floor divisions. */
  lemma FloorDiv(a: int)
    ensures TruncDiv(if a >= 0 then a else a - 146096, 146097) == a / 146097
    ensures TruncDiv(if a >= 0 then a else a - 399, 400) == a / 400
  {
  }

  lemma YearStartNext(y: int)
    requires 0 <= y < 400
    ensures YearStart(y + 1) == YearStart(y) + YearLength(y) - (if y == 399 then 1 else 0)
  {
  }

  /** A day of an era as centuries, groups of four years, years and days. */
  predicate EraParts(d: int, c: int, q: int, z: int, dayOfYear: int) {
    && 0 <= c < 4 && 0 <= q < 25 && 0 <= z < 4 && 0 <= dayOfYear <= 365
    && (dayOfYear == 365 ==> z == 3 && (q < 24 || c == 3))
    && d == 36524 * c + 1461 * q + 365 * z + dayOfYear
  }

  lemma YearParts(y: int) returns (c: int, q: int, z: int)
    requires 0 <= y < 400
    ensures 0 <= c < 4 && 0 <= q < 25 && 0 <= z < 4 && y == 100 * c + 4 * q + z
    ensures y / 4 == 25 * c + q && y / 100 == c
    ensures LongYear(y) <==> z == 3 && (q < 24 || c == 3)
  {
    c := y / 100;
    q := (y - 100 * c) / 4;
    z := y - 100 * c - 4 * q;
  }

  lemma DivideBy1460(d: int, c: int, q: int, z: int, dayOfYear: int)
    requires EraParts(d, c, q, z, dayOfYear)
    ensures d / 1460 == 25 * c + q + (if 24 * c + q + 365 * z + dayOfYear >= 1460 then 1 else 0)
  {
  }

  lemma DivideByCentury(d: int, c: int, q: int, z: int, dayOfYear: int)
    requires EraParts(d, c, q, z, dayOfYear)
    ensures d / 36524 - d / 146096 == c && 0 <= d < 146097
  {
    assert 1461 * q + 365 * z + dayOfYear <= 36524;
  }

  /** The formula finds the year that a day of an era lies in. */
  lemma YearOfEraCorrect(y: int, dayOfYear: int)
    requires 0 <= y < 400 && 0 <= dayOfYear < YearLength(y)
    ensures YearOfEra(YearStart(y) + dayOfYear) == y
    ensures 0 <= YearStart(y) + dayOfYear < 146097
  {
    var c, q, z := YearParts(y);
    var d := YearStart(y) + dayOfYear;
    assert EraParts(d, c, q, z, dayOfYear);
    DivideBy1460(d, c, q, z, dayOfYear);
    DivideByCentury(d, c, q, z, dayOfYear);
    hide LongYear;
    var t := if 24 * c + q + 365 * z + dayOfYear >= 1460 then 1 else 0;
    assert 0 <= dayOfYear - t <= 364;
    assert d - d / 1460 + d / 36524 - d / 146096 == 365 * y + (dayOfYear - t);
  }

  /** Every day of an era lies in one of its years. */
  lemma DayOfEraSplits(dayOfEra: int) returns (y: int)
    requires 0 <= dayOfEra < 146097
    ensures 0 <= y < 400 && 0 <= dayOfEra - YearStart(y) < YearLength(y)
  {
    y := 0;
    while y < 399 && dayOfEra >= YearStart(y + 1)
      invariant 0 <= y < 400 && YearStart(y) <= dayOfEra
    {
      y := y + 1;
    }
    YearStartNext(y);
  }

  // ----- Months

  /** The first day of a month of a March-based year. */
  function MonthStart(monthPrime: int): int {
    (153 * monthPrime + 2) / 5
  }

  function MonthLength(monthPrime: int, long: bool): int {
    if monthPrime == 11 then (if long then 29 else 28)
    else if monthPrime == 1 || monthPrime == 3 || monthPrime == 6 || monthPrime == 8 then 30
    else 31
  }

  lemma MonthStartNext(monthPrime: int)
    requires 0 <= monthPrime < 11
    ensures MonthStart(monthPrime + 1) == MonthStart(monthPrime) + MonthLength(monthPrime, false)
  {
  }

  lemma MonthOfDay(dayOfYear: int, long: bool)
    requires 0 <= dayOfYear < (if long then 366 else 365)
    ensures var monthPrime := (5 * dayOfYear + 2) / 153;
            0 <= monthPrime <= 11 && 0 <= dayOfYear - MonthStart(monthPrime) < MonthLength(monthPrime, long)
  {
  }

  lemma DayOfMonth(monthPrime: int, day: int, long: bool)
    requires 0 <= monthPrime <= 11 && 0 <= day < MonthLength(monthPrime, long)
    ensures var dayOfYear := MonthStart(monthPrime) + day;
            0 <= dayOfYear < (if long then 366 else 365) && (5 * dayOfYear + 2) / 153 == monthPrime
  {
  }

  // ----- The two conversions are inverse

  /** A date as the formulas take it apart. */
  datatype Parts = Parts(era: int, yearOfEra: int, monthPrime: int, day0: int)

  predicate ValidParts(p: Parts) {
    && 0 <= p.yearOfEra < 400 && 0 <= p.monthPrime <= 11
    && 0 <= p.day0 < MonthLength(p.monthPrime, LongYear(p.yearOfEra))
  }

  function DateOf(p: Parts): Date {
    var month := p.monthPrime + if p.monthPrime < 10 then 3 else -9;
    Date(p.yearOfEra + p.era * 400 + (if month <= 2 then 1 else 0), month, p.day0 + 1)
  }

  function PartsOf(d: Date): Parts {
    var year := d.year - if d.month <= 2 then 1 else 0;
    Parts(year / 400, year - year / 400 * 400, d.month + (if d.month > 2 then -3 else 9), d.day - 1)
  }

  function DayNumber(p: Parts): int {
    p.era * 146097 + YearStart(p.yearOfEra) + MonthStart(p.monthPrime) + p.day0 - 719468
  }

  lemma ModShift4(a: int, k: int)
    ensures (a + 4 * k) % 4 == a % 4
  {
  }

  lemma ModShift100(a: int, k: int)
    ensures (a + 100 * k) % 100 == a % 100
  {
  }

  lemma ModShift400(a: int, k: int)
    ensures (a + 400 * k) % 400 == a % 400
  {
  }

  lemma ModOfEra(a: int, era: int)
    ensures (a + era * 400) % 4 == a % 4 && (a + era * 400) % 100 == a % 100 && (a + era * 400) % 400 == a % 400
  {
    ModShift4(a, 100 * era);
    ModShift100(a, 4 * era);
    ModShift400(a, era);
  }

  lemma LeapOfParts(era: int, y: int)
    ensures IsLeap(y + era * 400 + 1) <==> LongYear(y)
  {
    ModOfEra(y + 1, era);
    assert y + 1 + era * 400 == y + era * 400 + 1;
  }

  /** Real dates are exactly the valid ways of taking a date apart. */
  lemma PartsOfDate(d: Date)
    requires IsDate(d)
    ensures ValidParts(PartsOf(d)) && DateOf(PartsOf(d)) == d
  {
    var p := PartsOf(d);
    LeapOfParts(p.era, p.yearOfEra);
    hide LongYear, IsLeap;
  }

  lemma DateOfParts(p: Parts)
    requires ValidParts(p)
    ensures IsDate(DateOf(p)) && PartsOf(DateOf(p)) == p
  {
    LeapOfParts(p.era, p.yearOfEra);
    hide LongYear, IsLeap;
  }

  lemma DateInYearOfParts(p: Parts)
    requires ValidParts(p)
    ensures DateInYear(p.yearOfEra + p.era * 400, MonthStart(p.monthPrime) + p.day0) == DateOf(p)
  {
    DayOfMonth(p.monthPrime, p.day0, LongYear(p.yearOfEra));
  }

  lemma SplitEra(era: int, dayOfEra: int)
    requires 0 <= dayOfEra < 146097
    ensures (era * 146097 + dayOfEra) / 146097 == era
  {
  }

  lemma CivilMathAt(era: int, dayOfEra: int)
    requires 0 <= dayOfEra < 146097
    ensures var y := YearOfEra(dayOfEra);
            CivilMath(era * 146097 + dayOfEra - 719468) == DateInYear(y + era * 400, dayOfEra - YearStart(y))
  {
    hide YearOfEra, YearStart, DateInYear, TruncDiv;
    SplitEra(era, dayOfEra);
    FloorDiv(era * 146097 + dayOfEra);
  }

  lemma CivilOfParts(p: Parts)
    requires ValidParts(p)
    ensures CivilMath(DayNumber(p)) == DateOf(p)
  {
    hide CivilMath, YearOfEra, YearStart, MonthStart, DateInYear, DateOf;
    DayOfMonth(p.monthPrime, p.day0, LongYear(p.yearOfEra));
    var dayOfYear := MonthStart(p.monthPrime) + p.day0;
    YearOfEraCorrect(p.yearOfEra, dayOfYear);
    DateInYearOfParts(p);
    CivilMathAt(p.era, YearStart(p.yearOfEra) + dayOfYear);
  }

  lemma EraOfYear(yearOfEra: int, era: int)
    requires 0 <= yearOfEra < 400
    ensures (yearOfEra + era * 400) / 400 == era
  {
  }

  lemma DaysOfParts(p: Parts)
    requires ValidParts(p)
    ensures var d := DateOf(p); DaysFromCivil(d.year, d.month, d.day) == Some(DayNumber(p))
  {
    DayOfMonth(p.monthPrime, p.day0, LongYear(p.yearOfEra));
    YearOfEraCorrect(p.yearOfEra, MonthStart(p.monthPrime) + p.day0);
    hide LongYear, YearStart, YearOfEra, TruncDiv;
    FloorDiv(p.yearOfEra + p.era * 400);
    EraOfYear(p.yearOfEra, p.era);
  }

  lemma PartsOfDay(n: int) returns (p: Parts)
    ensures ValidParts(p) && DayNumber(p) == n
  {
    var days := n + 719468;
    var era, dayOfEra := days / 146097, days % 146097;
    var y := DayOfEraSplits(dayOfEra);
    var dayOfYear := dayOfEra - YearStart(y);
    MonthOfDay(dayOfYear, LongYear(y));
    var monthPrime := (5 * dayOfYear + 2) / 153;
    p := Parts(era, y, monthPrime, dayOfYear - MonthStart(monthPrime));
  }

  /** On every day number, days_from_civil undoes civil_from_days. */
  lemma DaysUndoCivil(n: int)
    ensures IsDate(CivilMath(n))
    ensures var d := CivilMath(n); DaysFromCivil(d.year, d.month, d.day) == Some(n)
  {
    hide CivilMath, DaysFromCivil, DayNumber, DateOf, ValidParts, IsDate;
    var p := PartsOfDay(n);
    CivilOfParts(p);
    DateOfParts(p);
    DaysOfParts(p);
  }

  /** On every real date, civil_from_days undoes days_from_civil. */
  lemma CivilUndoesDays(d: Date)
    requires IsDate(d)
    ensures DaysFromCivil(d.year, d.month, d.day).Some?
    ensures CivilMath(DaysFromCivil(d.year, d.month, d.day).value) == d
  {
    hide CivilMath, DaysFromCivil, DayNumber, DateOf, PartsOf, ValidParts, IsDate;
    var p := PartsOf(d);
    PartsOfDate(d);
    CivilOfParts(p);
    DaysOfParts(p);
  }

  // ----- The closed form is the stepping form

  /** The next day, taken apart. */
  function NextParts(p: Parts): Parts {
    if p.day0 + 1 < MonthLength(p.monthPrime, LongYear(p.yearOfEra)) then p.(day0 := p.day0 + 1)
    else if p.monthPrime < 11 then p.(monthPrime := p.monthPrime + 1, day0 := 0)
    else if p.yearOfEra < 399 then Parts(p.era, p.yearOfEra + 1, 0, 0)
    else Parts(p.era + 1, 0, 0, 0)
  }

  lemma NextPartsNumber(p: Parts)
    requires ValidParts(p)
    ensures ValidParts(NextParts(p)) && DayNumber(NextParts(p)) == DayNumber(p) + 1
  {
    if p.day0 + 1 >= MonthLength(p.monthPrime, LongYear(p.yearOfEra)) {
      if p.monthPrime < 11 {
        hide LongYear, YearStart;
        MonthStartNext(p.monthPrime);
      } else {
        YearStartNext(p.yearOfEra);
        hide LongYear;
      }
    }
  }

  lemma NextPartsDate(p: Parts)
    requires ValidParts(p)
    ensures DateOf(NextParts(p)) == NextDay(DateOf(p))
  {
    LeapOfParts(p.era, p.yearOfEra);
    hide LongYear, IsLeap;
  }

  /** civil_from_days, before its year is cast to 32 bits, is the date reached by stepping one day at a time from
      the epoch. */
  lemma {:induction false} CivilIsStepped(n: int)
    ensures CivilMath(n) == Stepped(n)
    decreases if n < 0 then -n else n
  {
    hide CivilMath, DaysFromCivil, IsDate, NextDay, PreviousDay;
    if n > 0 {
      CivilIsStepped(n - 1);
      CivilSteps(n - 1);
    } else if n < 0 {
      CivilIsStepped(n + 1);
      CivilSteps(n);
      DaysUndoCivil(n);
      PreviousOfNext(CivilMath(n));
    } else {
      CivilOfParts(Parts(4, 369, 10, 0));
    }
  }

  lemma CivilSteps(n: int)
    ensures CivilMath(n + 1) == NextDay(CivilMath(n))
  {
    hide CivilMath, DayNumber, DateOf, ValidParts, NextParts, NextDay;
    var p := PartsOfDay(n);
    CivilOfParts(p);
    NextPartsNumber(p);
    NextPartsDate(p);
    CivilOfParts(NextParts(p));
  }

  lemma PreviousOfNext(d: Date)
    requires IsDate(d)
    ensures PreviousDay(NextDay(d)) == d
  {
  }

  /** The function the code calls casts the year to 32 bits, so it is right exactly on the days whose year fits. */
  lemma CivilFromDaysExact(n: int)
    ensures CivilFromDays(n) == Stepped(n) <==> -I32_LIMIT <= Stepped(n).year < I32_LIMIT
  {
    CivilIsStepped(n);
    hide CivilMath, Stepped;
  }

  lemma YearInEra(y: int)
    ensures 0 <= y - y / 400 * 400 < 400
    ensures y - y / 400 * 400 == 399 <==> (y + 1) % 400 == 0
  {
  }

  /** For the days the parser passes in, days_from_civil fails exactly on 30 and 31 February of a year divisible by 400;
      every other day past the end of its month is counted on into the next one. */
  lemma DaysFromCivilDomain(year: int, month: int, day: int)
    requires 1 <= month <= 12 && 1 <= day <= 31
    ensures DaysFromCivil(year, month, day).None? <==> month == 2 && day >= 30 && year % 400 == 0
    ensures DaysFromCivil(year, month, day).Some? ==>
              && DaysFromCivil(year, month, 1).Some?
              && DaysFromCivil(year, month, day).value == DaysFromCivil(year, month, 1).value + (day - 1)
  {
    var y := year - if month <= 2 then 1 else 0;
    FloorDiv(y);
    YearInEra(y);
    DayOfEraBound(y - y / 400 * 400, month + (if month > 2 then -3 else 9), day);
    hide TruncDiv, YearStart;
  }

  lemma DayOfEraBound(yearOfEra: int, monthPrime: int, day: int)
    requires 0 <= yearOfEra < 400 && 0 <= monthPrime <= 11 && 1 <= day <= 31
    ensures YearStart(yearOfEra) + (153 * monthPrime + 2) / 5 + day - 1 >= 146097
       <==> yearOfEra == 399 && monthPrime == 11 && day >= 30
  {
    YearOfEraCorrect(yearOfEra, 0);
    if yearOfEra < 399 {
      YearOfEraCorrect(yearOfEra + 1, 0);
      YearStartNext(yearOfEra);
      YearStartBelow(yearOfEra);
    }
  }

  lemma YearStartBelow(y: int)
    requires 0 <= y < 399
    ensures YearStart(y) + 365 + 365 <= YearStart(399) + 365
  {
  }
}
