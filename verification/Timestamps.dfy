/**
 Activity timestamps (time.rs): decimal epochs in milliseconds, and ISO 8601 text as sections 5.6
 and 5.7 of RFC 3339 describe it, read leniently.  Leap seconds are refused.
 */
module Timestamps {
  import opened Prelude
  import opened Text
  import opened Calendar

  /** The fields of an accepted text; `offset` is in minutes east of UTC. */
  datatype Fields = Fields(date: Date, hour: int, minute: int, second: int, millis: int, offset: int)

  predicate ValidFields(f: Fields) {
    && Valid(f.date) && I32_MIN <= f.date.year <= I32_MAX
    && 0 <= f.hour <= 23 && 0 <= f.minute <= 59 && 0 <= f.second <= 59 && 0 <= f.millis <= 999
    && -1439 <= f.offset <= 1439
  }

  /** Milliseconds of the local reading, as if it were UTC. */
  function LocalMillis(f: Fields): int {
    (((DaysFromCivil(f.date) * 24 + f.hour) * 60 + f.minute) * 60 + f.second) * 1000 + f.millis
  }

  function Instant(f: Fields): int {
    LocalMillis(f) - f.offset * 60 * 1000
  }

  // ---------------------------------------------------------------- reading

  /** The local time and the offset in minutes.  A missing suffix means UTC. */
  function ParseTimeAndOffset(value: string): Option<(string, int)> {
    if value != "" && value[|value| - 1] == 'Z' then Some((value[..|value| - 1], 0))
    else
      var at := FindLastSign(value);
      if at.None? then Some((value, 0))
      else
        var sign := if value[at.value] == '+' then 1 else -1;
        var parts := SplitOnce(value[at.value + 1..], ':');
        if parts.None? || |parts.value.0| != 2 || |parts.value.1| != 2 then None
        else
          var hours := ParseInt(parts.value.0, I32_MIN, I32_MAX);
          var minutes := ParseInt(parts.value.1, I32_MIN, I32_MAX);
          if hours.None? || minutes.None? || hours.value > 23 || minutes.value > 59 then None
          else Some((value[..at.value], sign * (hours.value * 60 + minutes.value)))
  }

  function PadRight(s: string, width: nat): (r: string)
    ensures |s| <= width ==> |r| == width
    ensures AllDigits(s) ==> AllDigits(r)
    decreases if |s| < width then width - |s| else 0
  {
    if |s| >= width then s else PadRight(s + ['0'], width)
  }

  /** Seconds and milliseconds; digits past the third of the fraction are dropped. */
  function ParseSeconds(text: string): Option<(int, int)> {
    var parts := SplitOnce(text, '.');
    if parts.None? then
      var second := ParseInt(text, 0, U32_MAX);
      if second.None? then None else Some((second.value, 0))
    else
      var fraction := parts.value.1;
      if fraction == "" || !AllDigits(fraction) then None
      else
        var millis := ParseInt(PadRight(if |fraction| > 3 then fraction[..3] else fraction, 3), 0, U32_MAX);
        var second := ParseInt(parts.value.0, 0, U32_MAX);
        if millis.None? || second.None? then None else Some((second.value, millis.value))
  }

  function ParseDate(text: string): Option<Date> {
    var parts := Split(text, '-');
    if |parts| != 3 then None
    else
      var year := ParseInt(parts[0], I32_MIN, I32_MAX);
      var month := ParseInt(parts[1], 0, U32_MAX);
      var day := ParseInt(parts[2], 0, U32_MAX);
      if year.None? || month.None? || day.None? then None else Some(Date(year.value, month.value, day.value))
  }

  function ParseTime(text: string): Option<(int, int, int, int)> {
    var parts := Split(text, ':');
    if |parts| != 3 then None
    else
      var hour := ParseInt(parts[0], 0, U32_MAX);
      var minute := ParseInt(parts[1], 0, U32_MAX);
      var seconds := ParseSeconds(parts[2]);
      if hour.None? || minute.None? || seconds.None? then None
      else Some((hour.value, minute.value, seconds.value.0, seconds.value.1))
  }

  function ParseFields(text: string): (r: Option<Fields>)
  {
    var halves := SplitOnce(text, 'T');
    if halves.None? then None
    else
      var date := ParseDate(halves.value.0);
      var zoned := ParseTimeAndOffset(halves.value.1);
      if date.None? || zoned.None? then None
      else
        var time := ParseTime(zoned.value.0);
        if time.None? then None
        else
          var (hour, minute, second, millis) := time.value;
          if !Valid(date.value) || hour > 23 || minute > 59 || second > 59 then None
          else Some(Fields(date.value, hour, minute, second, millis, zoned.value.1))
  }

  function ActivityMillis(value: string): Option<int> {
    var trimmed := Trim(value);
    if trimmed == "" then None
    else if AllDigits(trimmed) then ParseInt(trimmed, 0, I128_MAX)
    else
      var fields := ParseFields(trimmed);
      if fields.None? then None else Some(Instant(fields.value))
  }

  // ---------------------------------------------------------------- what is accepted

  lemma SignlessParts(value: string, at: nat)
    requires at < |value| && forall i :: at < i < |value| ==> value[i] != '+' && value[i] != '-'
    ensures var parts := SplitOnce(value[at + 1..], ':');
            parts.Some? ==> (forall c :: c in parts.value.0 || c in parts.value.1 ==> c != '+' && c != '-')
  {
    var tail := value[at + 1..];
    assert forall i :: 0 <= i < |tail| ==> tail[i] == value[at + 1 + i];
  }

  lemma {:induction false} DigitsBounded(s: string)
    requires AllDigits(s)
    ensures Digits(s) < Power10(|s|)
    decreases |s|
  {
    if s != "" {
      DigitsBounded(s[..|s| - 1]);
    }
  }

  lemma OffsetsAreBounded(value: string)
    ensures ParseTimeAndOffset(value).Some? ==> -1439 <= ParseTimeAndOffset(value).value.1 <= 1439
  {
    var at := FindLastSign(value);
    if at.Some? {
      SignlessParts(value, at.value);
    }
  }

  lemma MillisAreBounded(text: string)
    ensures ParseSeconds(text).Some? ==> ParseSeconds(text).value.0 >= 0 && 0 <= ParseSeconds(text).value.1 <= 999
  {
    var parts := SplitOnce(text, '.');
    if parts.Some? && parts.value.1 != "" && AllDigits(parts.value.1) {
      var fraction := parts.value.1;
      var padded := PadRight(if |fraction| > 3 then fraction[..3] else fraction, 3);
      DigitsBounded(padded);
      assert Power10(3) == 1000;
      assert padded[0] != '+' && padded[0] != '-';
    }
  }

  /** Only texts whose fields make sense are accepted; no leap second is. */
  lemma AcceptedFieldsAreValid(text: string)
    ensures ParseFields(text).Some? ==> ValidFields(ParseFields(text).value)
  {
    if ParseFields(text).Some? {
      var halves := SplitOnce(text, 'T').value;
      OffsetsAreBounded(halves.1);
      var zoned := ParseTimeAndOffset(halves.1).value;
      MillisAreBounded(Split(zoned.0, ':')[2]);
    }
  }

  // ---------------------------------------------------------------- order

  /** Lexicographic order of the date and time fields. */
  predicate Earlier(a: Fields, b: Fields) {
    || Before(a.date, b.date)
    || (a.date == b.date && (a.hour < b.hour
        || (a.hour == b.hour && (a.minute < b.minute
            || (a.minute == b.minute && (a.second < b.second
                || (a.second == b.second && a.millis < b.millis)))))))
  }

  function TimeOfDay(f: Fields): int {
    ((f.hour * 60 + f.minute) * 60 + f.second) * 1000 + f.millis
  }

  lemma LocalMillisSplits(f: Fields)
    requires ValidFields(f)
    ensures LocalMillis(f) == DaysFromCivil(f.date) * 86400000 + TimeOfDay(f) && 0 <= TimeOfDay(f) < 86400000
  {
    hide DaysFromCivil;
  }

  /** At equal offsets the instant orders texts as their fields do, and tells them apart. */
  lemma InstantsOrderFields(a: Fields, b: Fields)
    requires ValidFields(a) && ValidFields(b) && a.offset == b.offset
    ensures Instant(a) < Instant(b) <==> Earlier(a, b)
    ensures Instant(a) == Instant(b) <==> a == b
  {
    hide DaysFromCivil;
    LocalMillisSplits(a);
    LocalMillisSplits(b);
    DayNumbersOrderDates(a.date, b.date);
  }

  lemma AcceptedTextsAreOrdered(a: string, b: string)
    requires ParseFields(a).Some? && ParseFields(b).Some? && ParseFields(a).value.offset == ParseFields(b).value.offset
    ensures Instant(ParseFields(a).value) < Instant(ParseFields(b).value)
            <==> Earlier(ParseFields(a).value, ParseFields(b).value)
    ensures Instant(ParseFields(a).value) == Instant(ParseFields(b).value) <==> ParseFields(a) == ParseFields(b)
  {
    hide ParseFields, Instant;
    AcceptedFieldsAreValid(a);
    AcceptedFieldsAreValid(b);
    InstantsOrderFields(ParseFields(a).value, ParseFields(b).value);
  }

  // ---------------------------------------------------------------- printing and reading back

  /** How a text names its offset. */
  datatype Zone = Zulu | Numeric | Missing

  predicate Names(zone: Zone, offset: int) {
    zone.Numeric? || offset == 0
  }

  function PrintDate(d: Date): string
    requires Valid(d) && d.year >= 0
  {
    Padded(d.year, 4) + ['-'] + (Padded(d.month, 2) + ['-'] + Padded(d.day, 2))
  }

  function PrintTime(f: Fields): string
    requires ValidFields(f)
  {
    Padded(f.hour, 2) + [':'] + (Padded(f.minute, 2) + [':'] + (Padded(f.second, 2) + ['.'] + Padded(f.millis, 3)))
  }

  function PrintOffset(offset: nat): string {
    Padded(offset / 60, 2) + [':'] + Padded(offset % 60, 2)
  }

  function PrintZone(zone: Zone, offset: int): string {
    match zone
    case Zulu => "Z"
    case Missing => ""
    case Numeric => if offset >= 0 then ['+'] + PrintOffset(offset) else ['-'] + PrintOffset(-offset)
  }

  /** The canonical text, milliseconds included. */
  function Print(f: Fields, zone: Zone): string
    requires ValidFields(f) && f.date.year >= 0
  {
    PrintDate(f.date) + ['T'] + (PrintTime(f) + PrintZone(zone, f.offset))
  }

  lemma PlainDigits(s: string)
    requires AllDigits(s)
    ensures '-' !in s && '+' !in s && ':' !in s && '.' !in s && 'T' !in s && 'Z' !in s
  {
  }

  lemma ReadDate(d: Date)
    requires Valid(d) && 0 <= d.year <= I32_MAX
    ensures ParseDate(PrintDate(d)) == Some(d) && 'T' !in PrintDate(d)
  {
    hide Padded, Split, ParseInt, Leap;
    var y, m, n := Padded(d.year, 4), Padded(d.month, 2), Padded(d.day, 2);
    PlainDigits(y);
    PlainDigits(m);
    PlainDigits(n);
    SplitInThree(y, m, n, '-');
    ParsePrinted(d.year, 4, I32_MIN, I32_MAX);
    ParsePrinted(d.month, 2, 0, U32_MAX);
    ParsePrinted(d.day, 2, 0, U32_MAX);
  }

  lemma PaddedFits(n: nat, width: nat)
    requires 1 <= width && n < Power10(width)
    ensures |Padded(n, width)| == width
  {
    DecimalLength(n, width);
  }

  lemma ReadSeconds(second: nat, millis: nat)
    requires second <= 59 && millis <= 999
    ensures ParseSeconds(Padded(second, 2) + ['.'] + Padded(millis, 3)) == Some((second, millis))
  {
    PlainDigits(Padded(second, 2));
    SplitOnceAt(Padded(second, 2), '.', Padded(millis, 3));
    assert Power10(3) == 1000;
    PaddedFits(millis, 3);
    ParsePrinted(second, 2, 0, U32_MAX);
    ParsePrinted(millis, 3, 0, U32_MAX);
    hide Padded, SplitOnce, ParseInt;
  }

  lemma ReadTime(f: Fields)
    requires ValidFields(f)
    ensures ParseTime(PrintTime(f)) == Some((f.hour, f.minute, f.second, f.millis))
    ensures '+' !in PrintTime(f) && '-' !in PrintTime(f) && PrintTime(f) != "" && IsDigit(PrintTime(f)[|PrintTime(f)| - 1])
  {
    hide Padded, Split, ParseInt, ParseSeconds, Valid;
    var h, m, s, x := Padded(f.hour, 2), Padded(f.minute, 2), Padded(f.second, 2), Padded(f.millis, 3);
    PlainDigits(h);
    PlainDigits(m);
    PlainDigits(s);
    PlainDigits(x);
    SplitInThree(h, m, s + ['.'] + x, ':');
    ParsePrinted(f.hour, 2, 0, U32_MAX);
    ParsePrinted(f.minute, 2, 0, U32_MAX);
    ReadSeconds(f.second, f.millis);
    assert PrintTime(f)[|PrintTime(f)| - 1] == x[|x| - 1];
  }

  lemma {:induction false} LastSignAt(a: string, sign: char, b: string)
    requires (sign == '+' || sign == '-') && '+' !in b && '-' !in b
    ensures FindLastSign(a + [sign] + b) == Some(|a|)
    decreases |b|
  {
    var s := a + [sign] + b;
    if b != "" {
      assert s[..|s| - 1] == a + [sign] + b[..|b| - 1];
      LastSignAt(a, sign, b[..|b| - 1]);
    }
  }

  lemma SignSplits(time: string, sign: char, tail: string)
    requires (sign == '+' || sign == '-') && '+' !in tail && '-' !in tail && tail != ""
    ensures var whole := time + ([sign] + tail);
            && FindLastSign(whole) == Some(|time|) && whole[|time|] == sign && whole[|whole| - 1] == tail[|tail| - 1]
            && whole[..|time|] == time && whole[|time| + 1..] == tail
  {
    hide FindLastSign;
    assert time + [sign] + tail == time + ([sign] + tail);
    LastSignAt(time, sign, tail);
  }

  lemma ReadHoursAndMinutes(time: string, sign: char, h: string, m: string, hours: nat, minutes: nat)
    requires (sign == '+' || sign == '-') && AllDigits(h) && AllDigits(m) && |h| == |m| == 2 && hours <= 23 && minutes <= 59
    requires ParseInt(h, I32_MIN, I32_MAX) == Some(hours) && ParseInt(m, I32_MIN, I32_MAX) == Some(minutes)
    ensures ParseTimeAndOffset(time + ([sign] + (h + [':'] + m)))
            == Some((time, (if sign == '+' then 1 else -1) * (hours * 60 + minutes)))
  {
    hide SplitOnce, ParseInt, FindLastSign;
    PlainDigits(h);
    PlainDigits(m);
    SplitOnceAt(h, ':', m);
    var tail := h + [':'] + m;
    assert tail[|tail| - 1] == m[1];
    SignSplits(time, sign, tail);
  }

  lemma ReadOffset(time: string, sign: char, offset: nat)
    requires (sign == '+' || sign == '-') && offset <= 1439
    ensures ParseTimeAndOffset(time + ([sign] + PrintOffset(offset)))
            == Some((time, (if sign == '+' then 1 else -1) * offset))
  {
    hide Padded, ParseInt, ParseTimeAndOffset;
    TwoDigits(offset / 60);
    TwoDigits(offset % 60);
    ReadHoursAndMinutes(time, sign, Padded(offset / 60, 2), Padded(offset % 60, 2), offset / 60, offset % 60);
  }

  lemma TwoDigits(n: nat)
    requires n < 100
    ensures |Padded(n, 2)| == 2 && ParseInt(Padded(n, 2), I32_MIN, I32_MAX) == Some(n)
  {
    assert Power10(2) == 100;
    PaddedFits(n, 2);
    ParsePrinted(n, 2, I32_MIN, I32_MAX);
  }

  lemma NoSignFound(s: string)
    requires '+' !in s && '-' !in s
    ensures FindLastSign(s) == None
  {
  }

  lemma ReadZone(time: string, zone: Zone, offset: int)
    requires Names(zone, offset) && -1439 <= offset <= 1439
    requires '+' !in time && '-' !in time && time != "" && IsDigit(time[|time| - 1])
    ensures ParseTimeAndOffset(time + PrintZone(zone, offset)) == Some((time, offset))
  {
    hide ParseTimeAndOffset, PrintOffset;
    match zone
    case Zulu => NamedUtc(time);
    case Missing => UnnamedIsUtc(time);
    case Numeric => ReadOffset(time, if offset >= 0 then '+' else '-', if offset >= 0 then offset else -offset);
  }

  lemma UnnamedIsUtc(time: string)
    requires '+' !in time && '-' !in time && time != "" && IsDigit(time[|time| - 1])
    ensures ParseTimeAndOffset(time + "") == Some((time, 0))
  {
    hide ParseInt, SplitOnce;
    assert time + "" == time;
    NoSignFound(time);
  }

  lemma NamedUtc(time: string)
    ensures ParseTimeAndOffset(time + "Z") == Some((time, 0))
  {
    hide ParseInt, SplitOnce, FindLastSign;
    var text := time + "Z";
    assert text[|text| - 1] == 'Z' && text[..|text| - 1] == time;
  }

  /** Every canonical text reads back to the very fields it was printed from. */
  lemma PrintedFieldsReadBack(f: Fields, zone: Zone)
    requires ValidFields(f) && f.date.year >= 0 && Names(zone, f.offset)
    ensures ParseFields(Print(f, zone)) == Some(f)
  {
    ReadDate(f.date);
    ReadTime(f);
    ReadZone(PrintTime(f), zone, f.offset);
    SplitOnceAt(PrintDate(f.date), 'T', PrintTime(f) + PrintZone(zone, f.offset));
    hide PrintDate, PrintTime, PrintZone, SplitOnce, ParseDate, ParseTime, ParseTimeAndOffset;
  }

  lemma TrimKeeps(s: string)
    requires s != "" && !IsWhitespace(s[0]) && !IsWhitespace(s[|s| - 1])
    ensures Trim(s) == s
  {
  }

  lemma PrintedEnds(f: Fields, zone: Zone)
    requires ValidFields(f) && f.date.year >= 0
    ensures var text := Print(f, zone); Trim(text) == text && text != "" && !AllDigits(text)
  {
    hide Padded, PrintTime, PrintZone, Trim, AllDigits;
    var text, date, tail := Print(f, zone), PrintDate(f.date), PrintTime(f) + PrintZone(zone, f.offset);
    DigitFirst(Padded(f.date.year, 4));
    assert text[0] == Padded(f.date.year, 4)[0];
    ReadTime(f);
    ZoneEnds(PrintTime(f), zone, f.offset);
    assert text[|text| - 1] == tail[|tail| - 1];
    TrimKeeps(text);
    assert text[|date|] == 'T';
    NotAllDigits(text, |date|);
  }

  lemma DigitFirst(s: string)
    requires s != "" && AllDigits(s)
    ensures IsDigit(s[0]) && IsDigit(s[|s| - 1])
  {
  }

  lemma NotAllDigits(s: string, at: nat)
    requires at < |s| && s[at] == 'T'
    ensures !AllDigits(s)
  {
  }

  lemma ZoneEnds(time: string, zone: Zone, offset: int)
    requires time != "" && IsDigit(time[|time| - 1])
    ensures var tail := time + PrintZone(zone, offset);
            IsDigit(tail[|tail| - 1]) || tail[|tail| - 1] == 'Z'
  {
    hide Padded;
    var tail := time + PrintZone(zone, offset);
    match zone
    case Zulu =>
    case Missing => assert tail == time;
    case Numeric =>
      var minutes := Padded((if offset >= 0 then offset else -offset) % 60, 2);
      DigitFirst(minutes);
      assert tail[|tail| - 1] == minutes[|minutes| - 1];
  }

  /** Activity times of canonical texts and of decimal epochs. */
  lemma PrintedInstantReadsBack(f: Fields, zone: Zone)
    requires ValidFields(f) && f.date.year >= 0 && Names(zone, f.offset)
    ensures ActivityMillis(Print(f, zone)) == Some(Instant(f))
  {
    PrintedFieldsReadBack(f, zone);
    PrintedEnds(f, zone);
    hide Print, ParseFields, Trim;
  }

  lemma EpochReadsBack(n: nat)
    requires n <= I128_MAX
    ensures ActivityMillis(Decimal(n)) == Some(n)
  {
    var s := Decimal(n);
    assert IsDigit(s[0]) && IsDigit(s[|s| - 1]);
    TrimKeeps(s);
    ParsePrinted(n, 1, 0, I128_MAX);
    hide Trim, ParseInt, Decimal;
  }

  lemma InstantsFit(f: Fields)
    requires ValidFields(f) && f.date.year >= 0
    ensures Instant(f) <= I128_MAX
  {
    ClosedForm(f.date);
    LocalMillisSplits(f);
    hide DaysFromCivil;
    var n := f.date.year - if f.date.month <= 2 then 1 else 0;
    assert Closed(n) <= 367 * 0x8000_0000;
    assert DaysFromCivil(f.date) <= 368 * 0x8000_0000;
  }

  /** From the epoch on, a canonical text and the decimal epoch of its instant are the same time. */
  lemma TextAndEpochAgree(f: Fields, zone: Zone)
    requires ValidFields(f) && f.date.year >= 0 && Names(zone, f.offset) && Instant(f) >= 0
    ensures ActivityMillis(Print(f, zone)) == ActivityMillis(Decimal(Instant(f)))
  {
    hide Print, ActivityMillis, Instant;
    InstantsFit(f);
    PrintedInstantReadsBack(f, zone);
    EpochReadsBack(Instant(f));
  }

  /** Moving the clock reading and the offset together leaves the instant unchanged. */
  lemma ShiftedOffsetIsTheSameInstant(f: Fields, g: Fields, shift: int)
    requires ValidFields(f) && ValidFields(g) && f.date.year >= 0 && g.date.year >= 0
    requires g.offset == f.offset + shift && LocalMillis(g) == LocalMillis(f) + shift * 60000
    ensures ActivityMillis(Print(g, Numeric)) == ActivityMillis(Print(f, Numeric))
  {
    hide Print, ActivityMillis, LocalMillis;
    PrintedInstantReadsBack(f, Numeric);
    PrintedInstantReadsBack(g, Numeric);
  }

  /** The year is read up to the first dash, so the reader has no negative years: every accepted text
      has a year of at least 0, and a leading minus is never accepted. */
  lemma NegativeYearsAreRefused(text: string)
    ensures ParseFields(text).Some? ==> ParseFields(text).value.date.year >= 0
    ensures text != "" && text[0] == '-' ==> ParseFields(text) == None
  {
    hide ParseTimeAndOffset, ParseTime, Valid;
    var halves := SplitOnce(text, 'T');
    if halves.Some? {
      YearHasNoSign(halves.value.0);
      if text[0] == '-' && halves.value.0 != "" {
        var date := halves.value.0;
        assert date[0] == text[0];
        assert date == [] + ['-'] + date[1..];
        SplitAt([], '-', date[1..]);
      }
    }
  }

  lemma YearHasNoSign(text: string)
    ensures ParseDate(text).Some? ==> ParseDate(text).value.year >= 0
  {
    var parts := Split(text, '-');
    assert '-' !in parts[0];
    UnsignedIsNotNegative(parts[0], I32_MIN, I32_MAX);
    hide Split, ParseInt;
  }

  lemma UnsignedIsNotNegative(s: string, low: int, high: int)
    requires '-' !in s
    ensures ParseInt(s, low, high).Some? ==> ParseInt(s, low, high).value >= 0
  {
  }

  // ---------------------------------------------------------------- fractions of any length

  lemma ZeroAdded(s: string, p: nat)
    requires AllDigits(s)
    ensures AllDigits(s + ['0']) && Digits(s + ['0']) * p == Digits(s) * (10 * p)
  {
    var t := s + ['0'];
    assert t[..|s|] == s;
    assert Digits(t) == Digits(s) * 10;
    hide Digits;
  }

  lemma {:induction false} PaddedDigits(s: string, width: nat)
    requires AllDigits(s) && |s| <= width
    ensures AllDigits(PadRight(s, width)) && Digits(PadRight(s, width)) == Digits(s) * Power10(width - |s|)
    decreases width - |s|
  {
    hide Digits;
    if |s| < width {
      ZeroAdded(s, Power10(width - |s| - 1));
      PaddedDigits(s + ['0'], width);
    }
  }

  lemma ShiftedSum(a: nat, b: nat, p: nat, d: nat)
    ensures (a * p + b) * 10 + d == a * (10 * p) + (b * 10 + d)
  {
  }

  lemma LastDigit(s: string)
    requires s != "" && AllDigits(s)
    ensures AllDigits(s[..|s| - 1]) && Digits(s) == Digits(s[..|s| - 1]) * 10 + DigitValue(s[|s| - 1])
  {
  }

  lemma {:induction false} DigitsSplit(s: string, k: nat)
    requires AllDigits(s) && k <= |s|
    ensures Digits(s) == Digits(s[..k]) * Power10(|s| - k) + Digits(s[k..])
    decreases |s|
  {
    hide Digits;
    if k == |s| {
      assert s[..k] == s && s[k..] == "";
      NoDigits();
    } else {
      var init, tail := s[..|s| - 1], s[k..];
      assert init[..k] == s[..k] && tail[..|tail| - 1] == init[k..];
      LastDigit(s);
      LastDigit(tail);
      DigitsSplit(init, k);
      ShiftedSum(Digits(s[..k]), Digits(init[k..]), Power10(|init| - k), DigitValue(s[|s| - 1]));
    }
  }

  lemma NoDigits()
    ensures Digits("") == 0
  {
  }

  lemma {:induction false} PowersMultiply(a: nat, b: nat)
    ensures Power10(a + b) == Power10(a) * Power10(b)
  {
    if a > 0 {
      PowersMultiply(a - 1, b);
    }
  }

  lemma {:induction false} MultiplesApart(a: nat, b: nat, d: nat)
    requires a > b
    ensures a * d >= b * d + d
    decreases a
  {
    assert a * d == (a - 1) * d + d;
    if a - 1 > b {
      MultiplesApart(a - 1, b, d);
    }
  }

  lemma QuotientIs(n: nat, d: nat, q: nat)
    requires d > 0 && q * d <= n < q * d + d
    ensures n / d == q
  {
    if n / d > q {
      MultiplesApart(n / d, q, d);
      assert false;
    } else if n / d < q {
      MultiplesApart(q, n / d, d);
      assert false;
    }
  }

  lemma ThousandthsKept(a: nat, b: nat, p: nat)
    requires b < p
    ensures (a * p + b) * 1000 / (1000 * p) == a
  {
    assert (a * p + b) * 1000 == a * (1000 * p) + 1000 * b;
    QuotientIs((a * p + b) * 1000, 1000 * p, a);
  }

  /** The fraction in thousandths, rounded down. */
  function Thousandths(fraction: string): int
    requires AllDigits(fraction)
  {
    Digits(fraction) * 1000 / Power10(|fraction|)
  }

  lemma LongFraction(fraction: string)
    requires AllDigits(fraction) && |fraction| > 3
    ensures Thousandths(fraction) == Digits(fraction[..3])
  {
    hide Digits, Power10;
    DigitsSplit(fraction, 3);
    DigitsBounded(fraction[3..]);
    PowersMultiply(3, |fraction| - 3);
    ThreeZeros();
    ThousandthsKept(Digits(fraction[..3]), Digits(fraction[3..]), Power10(|fraction| - 3));
  }

  lemma ThreeZeros()
    ensures Power10(3) == 1000
  {
  }

  lemma ShortFraction(fraction: string)
    requires AllDigits(fraction) && 1 <= |fraction| <= 3
    ensures Thousandths(fraction) == Digits(fraction) * Power10(3 - |fraction|)
  {
    assert Power10(0) == 1 && Power10(1) == 10 && Power10(2) == 100 && Power10(3) == 1000;
  }

  lemma KeptDigits(kept: string)
    requires AllDigits(kept) && 1 <= |kept| <= 3
    ensures ParseInt(PadRight(kept, 3), 0, U32_MAX) == Some(Digits(kept) * Power10(3 - |kept|))
  {
    hide Digits, Power10;
    var padded := PadRight(kept, 3);
    PaddedDigits(kept, 3);
    DigitsBounded(padded);
    ThreeZeros();
    assert IsDigit(padded[0]);
    hide PadRight;
  }

  lemma FractionDigits(fraction: string)
    requires AllDigits(fraction) && fraction != ""
    ensures ParseInt(PadRight(if |fraction| > 3 then fraction[..3] else fraction, 3), 0, U32_MAX) == Some(Thousandths(fraction))
  {
    hide Digits, PadRight, ParseInt, Thousandths;
    if |fraction| > 3 {
      KeptDigits(fraction[..3]);
      LongFraction(fraction);
      assert Power10(0) == 1;
    } else {
      KeptDigits(fraction);
      ShortFraction(fraction);
    }
  }

  /** Seconds with a fraction of any length: the milliseconds are the fraction in thousandths, rounded
      down, and an empty fraction or one that is not all digits is refused. */
  lemma FractionsRoundDown(whole: string, fraction: string)
    requires '.' !in whole
    ensures var second := ParseInt(whole, 0, U32_MAX);
            ParseSeconds(whole + ['.'] + fraction)
            == if fraction == "" || !AllDigits(fraction) || second.None? then None
               else Some((second.value, Thousandths(fraction)))
  {
    SplitOnceAt(whole, '.', fraction);
    if fraction != "" && AllDigits(fraction) {
      FractionDigits(fraction);
    }
    hide ParseInt, PadRight, Thousandths, SplitOnce;
  }

  lemma SmallNumbers()
    ensures Digits("5") == 5 && Digits("123") == 123 && Digits("000") == 0
  {
    assert "5"[..0] == "" && "123"[..2] == "12" && "12"[..1] == "1" && "1"[..0] == "";
    assert "000"[..2] == "00" && "00"[..1] == "0" && "0"[..0] == "";
    assert Digits("1") == 1 && Digits("12") == 12 && Digits("0") == 0 && Digits("00") == 0;
  }

  lemma HalfASecond()
    ensures Thousandths("5") == 500 && Thousandths("123456") == 123 && Thousandths("0004") == 0
  {
    hide Digits, Thousandths;
    SmallNumbers();
    ShortFraction("5");
    LongFraction("123456");
    LongFraction("0004");
    assert "123456"[..3] == "123" && "0004"[..3] == "000" && Power10(2) == 100;
  }

  /** Seconds without a fraction have no milliseconds. */
  lemma WholeSeconds(second: nat)
    requires second <= 59
    ensures ParseSeconds(Padded(second, 2)) == Some((second, 0))
  {
    hide Padded, ParseInt;
    PlainDigits(Padded(second, 2));
    ParsePrinted(second, 2, 0, U32_MAX);
  }

  lemma UnsignedDigits(s: string, high: int)
    requires ParseInt(s, I32_MIN, high).Some? && (forall c :: c in s ==> c != '+' && c != '-')
    ensures s != "" && AllDigits(s)
  {
    assert s != "" ==> s[0] in s;
  }

  /** An offset that is accepted is two digits, a colon and two digits after the last sign. */
  lemma OffsetsAreTwoAndTwo(value: string)
    requires ParseTimeAndOffset(value).Some? && value != "" && value[|value| - 1] != 'Z' && FindLastSign(value).Some?
    ensures var tail := value[FindLastSign(value).value + 1..];
            |tail| == 5 && AllDigits(tail[..2]) && tail[2] == ':' && AllDigits(tail[3..])
    ensures ParseTimeAndOffset(value).value.0 == value[..FindLastSign(value).value]
  {
    var at := FindLastSign(value).value;
    var tail := value[at + 1..];
    SignlessParts(value, at);
    var parts := SplitOnce(tail, ':').value;
    UnsignedDigits(parts.0, I32_MAX);
    UnsignedDigits(parts.1, I32_MAX);
    assert tail == parts.0 + [':'] + parts.1;
    assert tail[..2] == parts.0 && tail[3..] == parts.1;
  }
}
