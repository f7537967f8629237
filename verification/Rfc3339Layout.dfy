/**
 The layout of the timestamps of auth.rs, character by character, after the grammar of
 section 5.6 of RFC 3339: what the printer writes at each place, and what the parser makes
 of any text with that layout.
 */
module Rfc3339Layout {
  import opened Text
  import opened Calendar
  import opened Rfc3339

  function DigitAt(s: string, i: nat): int
    requires i < |s|
  {
    s[i] as int - '0' as int
  }

  predicate DigitsAt(s: string, from: nat, to': nat)
    requires to' <= |s|
  {
    forall i | from <= i < to' :: '0' <= s[i] <= '9'
  }

  /** The two-digit number at a place. */
  function TwoAt(s: string, i: nat): int
    requires i + 2 <= |s|
  {
    10 * DigitAt(s, i) + DigitAt(s, i + 1)
  }

  function FourAt(s: string, i: nat): int
    requires i + 4 <= |s|
  {
    100 * TwoAt(s, i) + TwoAt(s, i + 2)
  }

  /** YYYY-MM-DDTHH:MM:SSZ, with digits for the letters that are not separators. */
  predicate HasLayout(s: string) {
    && |s| == 20
    && DigitsAt(s, 0, 4) && s[4] == '-' && DigitsAt(s, 5, 7) && s[7] == '-' && DigitsAt(s, 8, 10)
    && s[10] == 'T'
    && DigitsAt(s, 11, 13) && s[13] == ':' && DigitsAt(s, 14, 16) && s[16] == ':' && DigitsAt(s, 17, 19)
    && s[19] == 'Z'
  }

  // ----- The printer

  /** A padded number ends in its last digit, after the padded rest. */
  lemma PaddedLast(n: nat, width: int)
    requires width >= 2
    ensures Padded(n, width) == Padded(n / 10, width - 1) + [DigitChar(n % 10)]
  {
    hide Zeros;
    if n < 10 {
      ZerosLast(width - 1);
    }
  }

  lemma PaddedOne(n: int)
    requires 0 <= n < 10
    ensures Padded(n, 1) == [DigitChar(n)]
  {
  }

  lemma PaddedTwo(n: int)
    requires 0 <= n < 100
    ensures var p := Padded(n, 2); |p| == 2 && DigitsAt(p, 0, 2) && TwoAt(p, 0) == n
  {
    hide Padded;
    PaddedLast(n, 2);
    PaddedOne(n / 10);
  }

  lemma PaddedFour(n: int)
    requires 0 <= n < 10000
    ensures var p := Padded(n, 4); |p| == 4 && DigitsAt(p, 0, 4) && FourAt(p, 0) == n
  {
    hide Padded;
    PaddedLast(n, 4);
    PaddedLast(n / 10, 3);
    PaddedTwo(n / 10 / 10);
    var p, q := Padded(n, 4), Padded(n / 10 / 10, 2);
    assert p[0] == q[0] && p[1] == q[1] && p[2] == DigitChar(n / 10 % 10) && p[3] == DigitChar(n % 10);
  }

  /** Where each part of a joined text lies. */
  lemma Joined(y: string, mo: string, d: string, h: string, mi: string, sec: string)
    requires |y| == 4 && |mo| == 2 && |d| == 2 && |h| == 2 && |mi| == 2 && |sec| == 2
    ensures
      var s := y + "-" + (mo + "-" + d) + "T" + (h + ":" + (mi + ":" + sec)) + "Z";
      && |s| == 20 && s[4] == '-' && s[7] == '-' && s[10] == 'T' && s[13] == ':' && s[16] == ':' && s[19] == 'Z'
      && (forall i | 0 <= i < 4 :: s[i] == y[i]) && (forall i | 0 <= i < 2 :: s[5 + i] == mo[i])
      && (forall i | 0 <= i < 2 :: s[8 + i] == d[i]) && (forall i | 0 <= i < 2 :: s[11 + i] == h[i])
      && (forall i | 0 <= i < 2 :: s[14 + i] == mi[i]) && (forall i | 0 <= i < 2 :: s[17 + i] == sec[i])
  {
  }

  lemma StampLayout(d: Date, t: Time)
    requires 0 <= d.year <= 9999 && 1 <= d.month <= 12 && 1 <= d.day <= 31 && IsTime(t)
    ensures
      var s := Stamp(d, t);
      && HasLayout(s) && FourAt(s, 0) == d.year && TwoAt(s, 5) == d.month && TwoAt(s, 8) == d.day
      && TwoAt(s, 11) == t.hour && TwoAt(s, 14) == t.minute && TwoAt(s, 17) == t.second
  {
    hide Padded;
    PaddedFour(d.year);
    PaddedTwo(d.month);
    PaddedTwo(d.day);
    PaddedTwo(t.hour);
    PaddedTwo(t.minute);
    PaddedTwo(t.second);
    Joined(Padded(d.year, 4), Padded(d.month, 2), Padded(d.day, 2),
           Padded(t.hour, 2), Padded(t.minute, 2), Padded(t.second, 2));
    PlacesHold(Stamp(d, t), Padded(d.year, 4), Padded(d.month, 2), Padded(d.day, 2),
               Padded(t.hour, 2), Padded(t.minute, 2), Padded(t.second, 2));
  }

  lemma PlacesHold(s: string, y: string, mo: string, d: string, h: string, mi: string, sec: string)
    requires |y| == 4 && |mo| == 2 && |d| == 2 && |h| == 2 && |mi| == 2 && |sec| == 2 && |s| == 20
    requires DigitsAt(y, 0, 4) && DigitsAt(mo, 0, 2) && DigitsAt(d, 0, 2)
    requires DigitsAt(h, 0, 2) && DigitsAt(mi, 0, 2) && DigitsAt(sec, 0, 2)
    requires (forall i | 0 <= i < 4 :: s[i] == y[i]) && (forall i | 0 <= i < 2 :: s[5 + i] == mo[i])
    requires (forall i | 0 <= i < 2 :: s[8 + i] == d[i]) && (forall i | 0 <= i < 2 :: s[11 + i] == h[i])
    requires (forall i | 0 <= i < 2 :: s[14 + i] == mi[i]) && (forall i | 0 <= i < 2 :: s[17 + i] == sec[i])
    ensures DigitsAt(s, 0, 4) && DigitsAt(s, 5, 7) && DigitsAt(s, 8, 10)
    ensures DigitsAt(s, 11, 13) && DigitsAt(s, 14, 16) && DigitsAt(s, 17, 19)
    ensures FourAt(s, 0) == FourAt(y, 0) && TwoAt(s, 5) == TwoAt(mo, 0) && TwoAt(s, 8) == TwoAt(d, 0)
    ensures TwoAt(s, 11) == TwoAt(h, 0) && TwoAt(s, 14) == TwoAt(mi, 0) && TwoAt(s, 17) == TwoAt(sec, 0)
  {
    assert s[0] == y[0] && s[1] == y[1] && s[2] == y[2] && s[3] == y[3];
    assert s[5 + 0] == mo[0] && s[5 + 1] == mo[1] && s[8 + 0] == d[0] && s[8 + 1] == d[1];
    assert s[11 + 0] == h[0] && s[11 + 1] == h[1] && s[14 + 0] == mi[0] && s[14 + 1] == mi[1];
    assert s[17 + 0] == sec[0] && s[17 + 1] == sec[1];
  }

  /** Every instant through the year 9999 is printed in twenty characters with that layout: the date is the one the
      calendar reaches by counting days from the epoch, and the time is the time of that day. */
  lemma FormatLayout(seconds: nat)
    requires Stepped(seconds / 86400).year <= 9999
    ensures
      var s, d, rest := Format(seconds), Stepped(seconds / 86400), seconds % 86400;
      && HasLayout(s) && FourAt(s, 0) == d.year && TwoAt(s, 5) == d.month && TwoAt(s, 8) == d.day
      && TwoAt(s, 11) == rest / 3600 && TwoAt(s, 14) == rest / 60 % 60 && TwoAt(s, 17) == rest % 60
  {
    hide CivilMath, Stepped, Stamp, HasLayout, FourAt, TwoAt, IsDate;
    var n, rest := seconds / SECONDS_PER_DAY, seconds % SECONDS_PER_DAY;
    CivilIsStepped(n);
    DaysUndoCivil(n);
    DateBounds(CivilMath(n));
    EpochYear(n);
    TimeParts(rest);
    assert rest % 3600 / 60 == rest / 60 % 60;
    StampLayout(CivilMath(n), TimeOfDay(rest));
  }

  // ----- The parser

  lemma ValueOfTwo(s: string, i: nat)
    requires i + 2 <= |s| && DigitsAt(s, i, i + 2)
    ensures AllDigits(s[i..i + 2]) && Value(s[i..i + 2]) == TwoAt(s, i)
  {
    var p := s[i..i + 2];
    assert p[..1] == [s[i]];
    assert p[..1][..0] == [];
    assert Value(p[..1]) == DigitAt(s, i);
  }

  lemma ValueOfFour(s: string, i: nat)
    requires i + 4 <= |s| && DigitsAt(s, i, i + 4)
    ensures AllDigits(s[i..i + 4]) && Value(s[i..i + 4]) == FourAt(s, i)
  {
    var p := s[i..i + 4];
    ValueOfTwo(s, i);
    assert p[..3][..2] == s[i..i + 2] && p[..3] == s[i..i + 3];
    assert Value(p[..3]) == 10 * TwoAt(s, i) + DigitAt(s, i + 2);
  }

  lemma ParseDigits(p: string, min: int, max: int)
    requires AllDigits(p) && p != [] && min <= Value(p) <= max
    ensures ParseInt(p, min, max) == Some(Value(p))
  {
  }

  lemma SplitLayout(s: string)
    requires HasLayout(s)
    ensures
      && SplitOnce(s[..19], 'T') == Some((s[..10], s[11..19]))
      && SplitOn(s[..10], '-') == [s[0..4], s[5..7], s[8..10]]
      && SplitOn(s[11..19], ':') == [s[11..13], s[14..16], s[17..19]]
  {
    hide SplitOn, SplitOnce;
    assert s[..10] == s[0..4] + ['-'] + (s[5..7] + ['-'] + s[8..10]);
    SplitThree(s[0..4], s[5..7], s[8..10], '-');
    assert s[11..19] == s[11..13] + [':'] + (s[14..16] + [':'] + s[17..19]);
    SplitThree(s[11..13], s[14..16], s[17..19], ':');
    assert s[..19] == s[..10] + ['T'] + s[11..19];
    SplitFirst(s[..10], 'T', s[11..19]);
  }

  /** The fields of a text are those of a date and time of day, give or take the length of the month. */
  predicate InRange(s: string)
    requires |s| == 20
  {
    && 1 <= TwoAt(s, 5) <= 12 && 1 <= TwoAt(s, 8) <= 31
    && TwoAt(s, 11) <= 23 && TwoAt(s, 14) <= 59 && TwoAt(s, 17) <= 59
  }

  /** The parser reads the numbers at their places, and rejects a text whose numbers are out of range. */
  lemma ParseLayout(s: string)
    requires HasLayout(s)
    ensures
      Parse(s) == if !InRange(s) then Rejected else
        ParseFields(Some(FourAt(s, 0)), Some(TwoAt(s, 5)), Some(TwoAt(s, 8)),
                    Some(TwoAt(s, 11)), Some(TwoAt(s, 14)), Some(TwoAt(s, 17)))
  {
    hide SplitOn, SplitOnce, ParseInt, Value, DaysFromCivil;
    SplitLayout(s);
    FieldsParse(s);
    assert s[..|s| - 1] == s[..19];
  }

  lemma FieldsParse(s: string)
    requires HasLayout(s)
    ensures ParseInt(s[0..4], -I32_LIMIT, I32_LIMIT - 1) == Some(FourAt(s, 0))
    ensures ParseInt(s[5..7], 0, U32_MAX) == Some(TwoAt(s, 5))
    ensures ParseInt(s[8..10], 0, U32_MAX) == Some(TwoAt(s, 8))
    ensures ParseInt(s[11..13], 0, U64_MAX) == Some(TwoAt(s, 11))
    ensures ParseInt(s[14..16], 0, U64_MAX) == Some(TwoAt(s, 14))
    ensures ParseInt(s[17..19], 0, U64_MAX) == Some(TwoAt(s, 17))
  {
    hide ParseInt, Value;
    ValueOfFour(s, 0);
    ParseDigits(s[0..4], -I32_LIMIT, I32_LIMIT - 1);
    ValueOfTwo(s, 5);
    ParseDigits(s[5..7], 0, U32_MAX);
    ValueOfTwo(s, 8);
    ParseDigits(s[8..10], 0, U32_MAX);
    ValueOfTwo(s, 11);
    ParseDigits(s[11..13], 0, U64_MAX);
    ValueOfTwo(s, 14);
    ParseDigits(s[14..16], 0, U64_MAX);
    ValueOfTwo(s, 17);
    ParseDigits(s[17..19], 0, U64_MAX);
  }

  // ----- Texts of any other shape

  /** Empty, or a separator and anything after it. */
  predicate Extra(s: string, c: char) {
    s == [] || s[0] == c
  }

  lemma SplitTail(e: string, extra: string, c: char)
    requires c !in e && Extra(extra, c)
    ensures var parts := SplitOn(e + extra, c); parts != [] && parts[0] == e
  {
    hide SplitOn;
    if extra == [] {
      assert e + extra == e;
      SplitNone(e, c);
    } else {
      assert e + extra == e + [c] + extra[1..];
      SplitFirst(e, c, extra[1..]);
    }
  }

  lemma SplitWithExtra(a: string, b: string, e: string, extra: string, c: char)
    requires c !in a && c !in b && c !in e && Extra(extra, c)
    ensures
      var parts := SplitOn(a + [c] + (b + [c] + (e + extra)), c);
      |parts| >= 3 && parts[0] == a && parts[1] == b && parts[2] == e
  {
    hide SplitOn;
    SplitTail(e, extra, c);
    var tail := e + extra;
    SplitTwo(a, b, tail, c);
  }

  lemma SplitTwo(a: string, b: string, tail: string, c: char)
    requires c !in a && c !in b
    ensures SplitOn(a + [c] + (b + [c] + tail), c) == [a] + ([b] + SplitOn(tail, c))
  {
    hide SplitOn;
    var rest := b + [c] + tail;
    SplitFirst(b, c, tail);
    SplitFirst(a, c, rest);
  }

  /** The parser reads the first three parts of each half, as signed or unsigned numbers of any length, and ignores
      further parts. */
  lemma ParseParts(
      y: string, mo: string, d: string, moreDate: string, h: string, mi: string, sec: string, moreTime: string)
    requires '-' !in y && '-' !in mo && '-' !in d && Extra(moreDate, '-')
    requires ':' !in h && ':' !in mi && ':' !in sec && Extra(moreTime, ':')
    requires 'T' !in y && 'T' !in mo && 'T' !in d && 'T' !in moreDate
    ensures
      var date, time := y + ['-'] + (mo + ['-'] + (d + moreDate)), h + [':'] + (mi + [':'] + (sec + moreTime));
      Parse(date + ['T'] + time + ['Z'])
        == ParseFields(ParseInt(y, -0x8000_0000, 0x7FFF_FFFF), ParseInt(mo, 0, 0xFFFF_FFFF),
                       ParseInt(d, 0, 0xFFFF_FFFF), ParseInt(h, 0, 0xFFFF_FFFF_FFFF_FFFF),
                       ParseInt(mi, 0, 0xFFFF_FFFF_FFFF_FFFF), ParseInt(sec, 0, 0xFFFF_FFFF_FFFF_FFFF))
  {
    hide SplitOn, SplitOnce, ParseInt, ParseFields;
    var date, time := y + ['-'] + (mo + ['-'] + (d + moreDate)), h + [':'] + (mi + [':'] + (sec + moreTime));
    SplitWithExtra(y, mo, d, moreDate, '-');
    SplitWithExtra(h, mi, sec, moreTime, ':');
    var value := date + ['T'] + time + ['Z'];
    assert value[..|value| - 1] == date + ['T'] + time;
    SplitFirst(date, 'T', time);
  }

  lemma {:induction false} SplitOnceNone(s: string, c: char)
    ensures SplitOnce(s, c).None? <==> c !in s
  {
    if s != [] {
      SplitOnceNone(s[1..], c);
      assert s == [s[0]] + s[1..];
    }
  }

  /** A text that does not end in Z, or has no T before it, is rejected. */
  lemma ParseRejects(value: string)
    requires value == [] || value[|value| - 1] != 'Z' || 'T' !in value
    ensures Parse(value) == Rejected
  {
    hide SplitOn, SplitOnce, ParseInt, ParseFields;
    if value != [] {
      SplitOnceNone(value[..|value| - 1], 'T');
    }
  }

  /** What ParseInt accepts: an optional plus sign, or a minus sign for a signed type, then digits, within bounds. */
  lemma ParseIntExactly(s: string, min: int, max: int, n: int)
    requires min <= 0 <= max
    ensures ParseInt(s, min, max) == Some(n)
       <==> && min <= n <= max && s != []
            && var digits := if s[0] == '+' || (s[0] == '-' && min < 0) then s[1..] else s;
            && digits != [] && AllDigits(digits)
            && var v: int := Value(digits);
            n == if s[0] == '-' && min < 0 then -v else v
  {
  }

  /** Which fields make an instant: in range and with a day number at or after the epoch. */
  lemma FieldsExactly(
      year: Option<int>, month: Option<int>, day: Option<int>,
      hour: Option<int>, minute: Option<int>, second: Option<int>, seconds: nat)
    requires hour.Some? ==> hour.value >= 0
    requires minute.Some? ==> minute.value >= 0
    requires second.Some? ==> second.value >= 0
    ensures ParseFields(year, month, day, hour, minute, second) == At(seconds)
       <==> && year.Some? && month.Some? && day.Some? && hour.Some? && minute.Some? && second.Some?
            && 1 <= month.value <= 12 && 1 <= day.value <= 31
            && hour.value < 24 && minute.value < 60 && second.value < 60
            && var n := DaysFromCivil(year.value, month.value, day.value);
            && n.Some? && n.value >= 0
            && seconds == ((n.value * 24 + hour.value) * 60 + minute.value) * 60 + second.value
  {
    hide DaysFromCivil;
  }
}
