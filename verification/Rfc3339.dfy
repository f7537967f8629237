/**
 The timestamps of auth.rs, in the format of section 5.6 of RFC 3339: a printer for whole
 seconds since the epoch and a parser.
 */
module Rfc3339 {
  import opened Text
  import opened Calendar

  // ----- Numbers as text

  function DigitChar(d: int): char
    requires 0 <= d < 10
  {
    '0' + d as char
  }

  predicate IsDigit(c: char) {
    '0' <= c <= '9'
  }

  predicate AllDigits(s: string) {
    forall i | 0 <= i < |s| :: IsDigit(s[i])
  }

  function Digits(n: nat): (s: string)
    ensures s != [] && AllDigits(s)
  {
    if n < 10 then [DigitChar(n)] else Digits(n / 10) + [DigitChar(n % 10)]
  }

  function Zeros(n: int): (s: string)
    ensures AllDigits(s)
  {
    if n <= 0 then "" else "0" + Zeros(n - 1)
  }

  /** The format `{n:0width}`. */
  function Padded(n: int, width: int): string {
    if n < 0 then "-" + Zeros(width - 1 - |Digits(-n)|) + Digits(-n)
    else Zeros(width - |Digits(n)|) + Digits(n)
  }

  /** The number that a string of digits writes. */
  function Value(s: string): nat
    requires AllDigits(s)
  {
    if s == [] then 0 else Value(s[..|s| - 1]) * 10 + (s[|s| - 1] - '0') as nat
  }

  /** str::parse for an integer type with the given bounds; a signed one also accepts a minus sign. */
  function ParseInt(s: string, min: int, max: int): Option<int> {
    if s == [] then None
    else
      var negative := s[0] == '-' && min < 0;
      var digits := if negative || s[0] == '+' then s[1..] else s;
      if digits == [] || !AllDigits(digits) then None
      else
        var n := Value(digits) * if negative then -1 else 1;
        if min <= n <= max then Some(n) else None
  }

  // ----- The printer and the parser

  datatype Time = Time(hour: int, minute: int, second: int)

  predicate IsTime(t: Time) {
    0 <= t.hour <= 23 && 0 <= t.minute <= 59 && 0 <= t.second <= 59
  }

  const SECONDS_PER_DAY := 86400
  const U32_MAX := 0xFFFF_FFFF
  const U64_MAX := 0xFFFF_FFFF_FFFF_FFFF

  function DateText(d: Date): string {
    Padded(d.year, 4) + "-" + (Padded(d.month, 2) + "-" + Padded(d.day, 2))
  }

  function TimeText(t: Time): string {
    Padded(t.hour, 2) + ":" + (Padded(t.minute, 2) + ":" + Padded(t.second, 2))
  }

  function Stamp(d: Date, t: Time): string {
    DateText(d) + "T" + TimeText(t) + "Z"
  }

  function TimeOfDay(secondsOfDay: int): Time {
    Time(secondsOfDay / 3600, secondsOfDay % 3600 / 60, secondsOfDay % 60)
  }

  /** format_rfc3339; an instant before the epoch counts as the epoch. */
  function Format(seconds: nat): string {
    Stamp(CivilFromDays(seconds / SECONDS_PER_DAY), TimeOfDay(seconds % SECONDS_PER_DAY))
  }

  /** A date before the epoch overflows the unsigned arithmetic of the parser, which then panics. */
  datatype Parsed = Rejected | At(seconds: nat) | Overflows

  /** parse_rfc3339. */
  function Parse(value: string): Parsed {
    if value == [] || value[|value| - 1] != 'Z' then Rejected
    else
      var halves := SplitOnce(value[..|value| - 1], 'T');
      if halves.None? then Rejected
      else
        var dateParts := SplitOn(halves.value.0, '-');
        var timeParts := SplitOn(halves.value.1, ':');
        if |dateParts| < 3 || |timeParts| < 3 then Rejected
        else
          ParseFields(
            ParseInt(dateParts[0], -I32_LIMIT, I32_LIMIT - 1),
            ParseInt(dateParts[1], 0, U32_MAX),
            ParseInt(dateParts[2], 0, U32_MAX),
            ParseInt(timeParts[0], 0, U64_MAX),
            ParseInt(timeParts[1], 0, U64_MAX),
            ParseInt(timeParts[2], 0, U64_MAX))
  }

  function ParseFields(
      year: Option<int>, month: Option<int>, day: Option<int>,
      hour: Option<int>, minute: Option<int>, second: Option<int>): Parsed
  {
    if year.None? || month.None? || day.None? || hour.None? || minute.None? || second.None? then Rejected
    else if !(1 <= month.value <= 12) || !(1 <= day.value <= 31) then Rejected
    else if !IsTime(Time(hour.value, minute.value, second.value)) then Rejected
    else Instant(DaysFromCivil(year.value, month.value, day.value), Time(hour.value, minute.value, second.value))
  }

  function SecondOfDay(t: Time): int {
    t.hour * 3600 + t.minute * 60 + t.second
  }

  function Instant(days: Option<int>, t: Time): Parsed
    requires IsTime(t)
  {
    if days.None? then Rejected
    else if days.value < 0 then Overflows
    else At(days.value * SECONDS_PER_DAY + SecondOfDay(t))
  }

  // ----- Reading back what was printed

  lemma {:induction false} ValueOfDigits(n: nat)
    ensures Value(Digits(n)) == n
  {
    if n >= 10 {
      ValueOfDigits(n / 10);
      assert Digits(n)[..|Digits(n)| - 1] == Digits(n / 10);
    }
  }

  lemma {:induction false} ValueOfZeros(n: int, s: string)
    requires AllDigits(s)
    ensures AllDigits(Zeros(n) + s) && Value(Zeros(n) + s) == Value(s)
  {
    if s == [] {
      assert Zeros(n) + s == Zeros(n);
      ZerosValue(n);
    } else {
      var k := |s| - 1;
      ValueOfZeros(n, s[..k]);
      assert (Zeros(n) + s)[..|Zeros(n) + s| - 1] == Zeros(n) + s[..k];
    }
  }

  lemma {:induction false} ZerosValue(n: int)
    ensures Value(Zeros(n)) == 0
  {
    if n > 0 {
      ZerosValue(n - 1);
      ZerosLast(n);
    }
  }

  lemma {:induction false} ZerosLast(n: int)
    requires n > 0
    ensures Zeros(n) == Zeros(n - 1) + "0"
  {
    if n > 1 { ZerosLast(n - 1); }
  }

  lemma ParsePadded(n: nat, width: int, min: int, max: int)
    requires min <= n <= max
    ensures AllDigits(Padded(n, width)) && ParseInt(Padded(n, width), min, max) == Some(n)
  {
    hide Digits, Zeros, Value;
    ValueOfDigits(n);
    ValueOfZeros(width - |Digits(n)|, Digits(n));
  }

  lemma DigitsAvoid(s: string, c: char)
    requires AllDigits(s) && !IsDigit(c)
    ensures c !in s
  {
  }

  /** Parsing a printed date and time gives back the fields, whatever the day number they stand for. */
  lemma ParseStamp(d: Date, t: Time)
    requires 0 <= d.year < I32_LIMIT && 1 <= d.month <= 12 && 1 <= d.day <= 31 && IsTime(t)
    ensures Parse(Stamp(d, t)) == Instant(DaysFromCivil(d.year, d.month, d.day), t)
  {
    hide Padded, ParseInt, DaysFromCivil, SplitOn, SplitOnce;
    ParsePadded(d.year, 4, -I32_LIMIT, I32_LIMIT - 1);
    ParsePadded(d.month, 2, 0, U32_MAX);
    ParsePadded(d.day, 2, 0, U32_MAX);
    ParsePadded(t.hour, 2, 0, U64_MAX);
    ParsePadded(t.minute, 2, 0, U64_MAX);
    ParsePadded(t.second, 2, 0, U64_MAX);
    SplitThree(Padded(d.year, 4), Padded(d.month, 2), Padded(d.day, 2), '-');
    SplitThree(Padded(t.hour, 2), Padded(t.minute, 2), Padded(t.second, 2), ':');
    StripStamp(d, t);
    SplitFirst(DateText(d), 'T', TimeText(t));
  }

  lemma StripStamp(d: Date, t: Time)
    requires AllDigits(Padded(d.year, 4)) && AllDigits(Padded(d.month, 2)) && AllDigits(Padded(d.day, 2))
    ensures var s := Stamp(d, t); s != [] && s[|s| - 1] == 'Z' && s[..|s| - 1] == DateText(d) + ['T'] + TimeText(t)
    ensures 'T' !in DateText(d)
  {
    hide Padded;
    assert DateText(d) + "T" == DateText(d) + ['T'];
  }

  lemma SplitThree(a: string, b: string, e: string, c: char)
    requires AllDigits(a) && AllDigits(b) && AllDigits(e) && !IsDigit(c)
    ensures SplitOn(a + [c] + (b + [c] + e), c) == [a, b, e]
  {
    DigitsAvoid(a, c);
    DigitsAvoid(b, c);
    DigitsAvoid(e, c);
    SplitFirst(a, c, b + [c] + e);
    SplitFirst(b, c, e);
    SplitNone(e, c);
  }

  lemma TimeParts(secondsOfDay: int)
    requires 0 <= secondsOfDay < SECONDS_PER_DAY
    ensures IsTime(TimeOfDay(secondsOfDay)) && SecondOfDay(TimeOfDay(secondsOfDay)) == secondsOfDay
  {
  }

  lemma PaddedChars(n: int, width: int)
    ensures forall i | 0 <= i < |Padded(n, width)| :: Padded(n, width)[i] != 'T'
    ensures n < 0 ==> Padded(n, width) != [] && Padded(n, width)[0] == '-'
  {
  }

  lemma SplitLeading(s: string, c: char)
    requires s != [] && s[0] == c
    ensures SplitOn(s, c)[0] == ""
  {
  }

  /** A date text that starts with a minus sign has an empty first part, so it is rejected. */
  lemma NegativeYearRejected(d: Date, t: Time)
    requires d.year < 0
    ensures Parse(Stamp(d, t)) == Rejected
  {
    hide DaysFromCivil, SplitOnce, SplitOn, Padded, IsTime, IsDigit, AllDigits;
    PaddedChars(d.year, 4);
    PaddedChars(d.month, 2);
    PaddedChars(d.day, 2);
    var text := DateText(d);
    assert text[0] == '-';
    assert 'T' !in text;
    var s := Stamp(d, t);
    assert s[..|s| - 1] == text + ['T'] + TimeText(t);
    SplitFirst(text, 'T', TimeText(t));
    SplitLeading(text, '-');
    assert ParseInt("", -I32_LIMIT, I32_LIMIT - 1).None?;
  }

  // ----- The round trip

  lemma EpochYear(n: nat)
    ensures CivilMath(n).year >= 1970
  {
    var d := CivilMath(n);
    DaysUndoCivil(n);
    CivilIsStepped(n);
    SteppedYear(n);
  }

  lemma {:induction false} SteppedYear(n: nat)
    ensures Stepped(n).year >= 1970
  {
    if n > 0 { SteppedYear(n - 1); }
  }

  /** A date text whose year was cut to 32 bits stands for another day. */
  lemma WrongYearWrongDay(n: int, year: int)
    requires var d := CivilMath(n); year != d.year
    ensures var d := CivilMath(n); DaysFromCivil(year, d.month, d.day) != Some(n)
  {
    hide CivilMath, DaysFromCivil, Stepped;
    var d := CivilMath(n);
    DaysUndoCivil(n);
    if IsDate(Date(year, d.month, d.day)) {
      CivilUndoesDays(Date(year, d.month, d.day));
    } else {
      // 29 February of a year without one counts as 1 March.
      assert d.month == 2 && d.day == 29;
      DaysFromCivilDomain(year, 2, 29);
      DaysFromCivilDomain(year, 2, 28);
      CivilUndoesDays(Date(year, 2, 28));
      var k := DaysFromCivil(year, 2, 28).value;
      CivilSteps(k);
      assert CivilMath(k + 1) == Date(year, 3, 1);
    }
  }

  lemma WrapFacts(y: nat)
    ensures -I32_LIMIT <= WrapI32(y) < I32_LIMIT && (WrapI32(y) == y <==> y < I32_LIMIT)
  {
  }

  lemma SameSecond(m: int, n: int, secondsOfDay: int)
    ensures m * SECONDS_PER_DAY + secondsOfDay == n * SECONDS_PER_DAY + secondsOfDay <==> m == n
  {
  }

  /** Parsing undoes printing to the whole second, exactly for the instants whose year fits in 32 bits. */
  lemma RoundTrip(seconds: nat)
    ensures Parse(Format(seconds)) == At(seconds) <==> Stepped(seconds / SECONDS_PER_DAY).year < I32_LIMIT
  {
    hide CivilMath, DaysFromCivil, Stepped, Parse, Stamp, WrapI32, TimeOfDay, SecondOfDay, IsDate, DaysInMonth, IsTime;
    var n, rest := seconds / SECONDS_PER_DAY, seconds % SECONDS_PER_DAY;
    var d, t := CivilMath(n), TimeOfDay(rest);
    CivilIsStepped(n);
    DaysUndoCivil(n);
    DateBounds(d);
    EpochYear(n);
    TimeParts(rest);
    WrapFacts(d.year);
    var year := WrapI32(d.year);
    if year < 0 {
      NegativeYearRejected(d.(year := year), t);
    } else {
      ParseStamp(d.(year := year), t);
      var days := DaysFromCivil(year, d.month, d.day);
      if d.year < I32_LIMIT {
        assert days == Some(n);
      } else {
        WrongYearWrongDay(n, year);
        if days.Some? { SameSecond(days.value, n, rest); }
      }
    }
  }

  lemma DateBounds(d: Date)
    requires IsDate(d)
    ensures 1 <= d.month <= 12 && 1 <= d.day <= 31
  {
  }

  /** Printing undoes parsing on every stamp of a real date from 1970 on. */
  lemma PrintUndoesParse(d: Date, t: Time)
    requires IsDate(d) && 1970 <= d.year < I32_LIMIT && IsTime(t)
    ensures Parse(Stamp(d, t)).At? && Format(Parse(Stamp(d, t)).seconds) == Stamp(d, t)
  {
    hide CivilMath, DaysFromCivil, Parse, Stamp;
    ParseStamp(d, t);
    CivilUndoesDays(d);
    var n := DaysFromCivil(d.year, d.month, d.day).value;
    NotBeforeEpoch(n);
    var seconds := n * SECONDS_PER_DAY + SecondOfDay(t);
    assert seconds / SECONDS_PER_DAY == n && seconds % SECONDS_PER_DAY == SecondOfDay(t);
    assert TimeOfDay(SecondOfDay(t)) == t;
  }

  lemma NotBeforeEpoch(n: int)
    requires CivilMath(n).year >= 1970
    ensures n >= 0
  {
    if n < 0 {
      CivilIsStepped(n);
      BeforeEpoch(n);
    }
  }

  lemma {:induction false} BeforeEpoch(n: int)
    requires n < 0
    ensures Stepped(n).year < 1970
    decreases -n
  {
    if n < -1 { BeforeEpoch(n + 1); }
  }

  // ----- Where the code does not round-trip

  /** A stamp of a real date overflows the parser exactly when the date lies before the epoch. */
  lemma OverflowsExactly(d: Date, t: Time)
    requires IsDate(d) && 0 <= d.year < I32_LIMIT && IsTime(t)
    ensures Parse(Stamp(d, t)) == Overflows <==> d.year < 1970
  {
    hide CivilMath, DaysFromCivil, Stepped, Parse, Stamp;
    ParseStamp(d, t);
    CivilUndoesDays(d);
    var n := DaysFromCivil(d.year, d.month, d.day).value;
    CivilIsStepped(n);
    if n < 0 {
      BeforeEpoch(n);
    } else {
      EpochYear(n);
    }
  }

  /** The last second before the epoch is a stamp that overflows. */
  lemma LastSecondBeforeEpoch()
    ensures Parse(Stamp(Date(1969, 12, 31), Time(23, 59, 59))) == Overflows
  {
    hide Parse, Stamp;
    OverflowsExactly(Date(1969, 12, 31), Time(23, 59, 59));
  }

  /** The first instant whose year no longer fits in 32 bits is neither dated right nor read back. */
  lemma FirstYearTooLong()
    ensures DaysFromCivil(I32_LIMIT, 1, 1).Some? && DaysFromCivil(I32_LIMIT, 1, 1).value >= 0
    ensures
      var n := DaysFromCivil(I32_LIMIT, 1, 1).value;
      CivilFromDays(n) != Stepped(n) && Parse(Format(n * SECONDS_PER_DAY)) != At(n * SECONDS_PER_DAY)
  {
    hide CivilMath, CivilFromDays, DaysFromCivil, Stepped, Parse, Format;
    CivilUndoesDays(Date(I32_LIMIT, 1, 1));
    var n := DaysFromCivil(I32_LIMIT, 1, 1).value;
    NotBeforeEpoch(n);
    CivilIsStepped(n);
    CivilFromDaysExact(n);
    RoundTrip(n * SECONDS_PER_DAY);
    assert n * SECONDS_PER_DAY / SECONDS_PER_DAY == n;
  }
}
