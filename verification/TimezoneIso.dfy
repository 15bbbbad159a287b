/** Printing an instant as an ISO-8601 string in a zone, against a reader of the date-time grammar of section 5.6 of
    RFC 3339 (without leap seconds). Instants and offsets are milliseconds. */
module TimezoneIso {
  import opened CivilCalendar
  import opened Decimals
  import opened Prelude

  // ─── Numerals of fixed width ───────────────────────────

  function Two(n: int): (s: string)
    requires 0 <= n < 100
    ensures |s| == 2
  {
    [Digit(n / 10), Digit(n % 10)]
  }

  function Three(n: int): (s: string)
    requires 0 <= n < 1000
    ensures |s| == 3
  {
    [Digit(n / 100), Digit(n / 10 % 10), Digit(n % 10)]
  }

  function Pad2(s: string): string {
    if |s| == 1 then "0" + s else s
  }

  lemma NumberTwo(n: int)
    requires 0 <= n < 100
    ensures AllDigits(Two(n)) && ValueOf(Two(n)) == n
  {
    var s := Two(n);
    assert s[..1] == [s[0]];
    assert ValueOf(s[..1]) == 10 * ValueOf([]) + Value(s[0]);
    assert Value(s[0]) == n / 10 && Value(s[1]) == n % 10;
  }

  lemma NumberThree(n: int)
    requires 0 <= n < 1000
    ensures AllDigits(Three(n)) && ValueOf(Three(n)) == n
  {
    var s := Three(n);
    assert s[..2] == Two(n / 10);
    NumberTwo(n / 10);
  }

  lemma NumeralLength(n: nat)
    ensures |Numeral(n)| == 1 <==> n < 10
    ensures |Numeral(n)| == 2 <==> 10 <= n < 100
    ensures |Numeral(n)| == 4 <==> 1000 <= n < 10000
  {
    if n >= 10 { assert |Numeral(n)| == |Numeral(n / 10)| + 1; }
    if n >= 100 { assert |Numeral(n / 10)| == |Numeral(n / 100)| + 1; }
    if n >= 1000 { assert |Numeral(n / 100)| == |Numeral(n / 1000)| + 1; }
    if n >= 10000 { assert |Numeral(n / 1000)| == |Numeral(n / 10000)| + 1; }
    assert n / 10 / 10 == n / 100 && n / 100 / 10 == n / 1000 && n / 1000 / 10 == n / 10000;
  }

  /** Padding does not change the number, and two digits come out exactly below 100. */
  lemma NumberPadded(n: nat)
    ensures var s := Pad2(Numeral(n));
            AllDigits(s) && ValueOf(s) == n && |s| >= 2 && (|s| == 2 <==> n < 100)
  {
    ValueOfNumeral(n);
    NumeralLength(n);
    if n < 10 {
      var s := "0" + Numeral(n);
      assert s[..1] == "0" && ValueOf("0") == 10 * ValueOf("0"[..0]) + Value('0');
      assert Numeral(n)[..0] == "";
    }
  }

  // ─── The reader ────────────────────────────────────────

  datatype Fields = Fields(date: Civil, hour: int, minute: int, second: int, ms: int)

  predicate ValidFields(f: Fields) {
    ValidCivil(f.date) && 0 <= f.hour < 24 && 0 <= f.minute < 60 && 0 <= f.second < 60 && 0 <= f.ms < 1000
  }

  /** The instant at which a clock without offset shows these fields. */
  function Instant(f: Fields): int
    requires ValidFields(f)
  {
    ToDay(f.date) * MS_PER_DAY + f.hour * MS_PER_HOUR + f.minute * MS_PER_MINUTE + f.second * 1000 + f.ms
  }

  /** full-date "T" partial-time with three fraction digits, as section 15.9.1.15 of ECMA-262 edition 5.1 also has it */
  function ReadFields(s: string): (r: Option<Fields>)
    requires |s| == 23
    ensures r.Some? ==> ValidFields(r.value)
  {
    if !(s[4] == '-' && s[7] == '-' && s[10] == 'T' && s[13] == ':' && s[16] == ':' && s[19] == '.') then None
    else if !(AllDigits(s[..4]) && AllDigits(s[5..7]) && AllDigits(s[8..10])) then None
    else if !(AllDigits(s[11..13]) && AllDigits(s[14..16]) && AllDigits(s[17..19]) && AllDigits(s[20..])) then None
    else
      var date := Civil(ValueOf(s[..4]), ValueOf(s[5..7]) - 1, ValueOf(s[8..10]));
      var f := Fields(date, ValueOf(s[11..13]), ValueOf(s[14..16]), ValueOf(s[17..19]), ValueOf(s[20..]));
      if ValidFields(f) then Some(f) else None
  }

  /** "Z" or time-numoffset, in minutes */
  function ReadZone(s: string): Option<int> {
    if s == "Z" then Some(0)
    else if !(|s| == 6 && (s[0] == '+' || s[0] == '-') && s[3] == ':') then None
    else if !(AllDigits(s[1..3]) && AllDigits(s[4..])) then None
    else
      var h, m := ValueOf(s[1..3]), ValueOf(s[4..]);
      if h >= 24 || m >= 60 then None
      else if s[0] == '+' then Some(60 * h + m) else Some(-(60 * h + m))
  }

  function Read(s: string): Option<int> {
    if |s| < 23 then None
    else
      var fields, zone := ReadFields(s[..23]), ReadZone(s[23..]);
      if fields.None? || zone.None? then None
      else Some(Instant(fields.value) - zone.value * MS_PER_MINUTE)
  }

  // ─── The printer ───────────────────────────────────────

  /** What a clock shows `local` milliseconds after 1970-01-01T00:00. */
  function FieldsOf(local: int): (f: Fields)
    ensures ValidFields(f)
  {
    var t := local % MS_PER_DAY;
    Fields(FromDay(local / MS_PER_DAY), t / MS_PER_HOUR, t / MS_PER_MINUTE % 60, t / 1000 % 60, t % 1000)
  }

  lemma FieldsRoundTrip(local: int)
    ensures Instant(FieldsOf(local)) == local
  {
    var t := local % MS_PER_DAY;
    TimeRecomposes(t);
    assert local == local / MS_PER_DAY * MS_PER_DAY + t;
  }

  lemma TimeRecomposes(t: int)
    requires 0 <= t < MS_PER_DAY
    ensures t == t / MS_PER_HOUR * MS_PER_HOUR + t / MS_PER_MINUTE % 60 * MS_PER_MINUTE + t / 1000 % 60 * 1000 +
            t % 1000
  {
    var s, m := t / 1000, t / MS_PER_MINUTE;
    assert m == s / 60 && t / MS_PER_HOUR == m / 60;
  }

  /** The part the formatter yields for the hour: some runtimes call midnight "24". */
  function HourPart(hour: int, midnightIs24: bool): string
    requires 0 <= hour < 24
  {
    if hour == 0 && midnightIs24 then "24" else Two(hour)
  }

  function Join(year: string, month: string, day: string, hour: string, minute: string, second: string,
                ms: string): string {
    year + "-" + month + "-" + day + "T" + hour + ":" + minute + ":" + second + "." + ms
  }

  /** Years before the first are counted backwards and print without their era. */
  function YearText(year: int): string {
    Numeral(if year >= 1 then year else 1 - year)
  }

  function Stamp(f: Fields, hour: string): string
    requires ValidFields(f)
  {
    Join(YearText(f.date.year), Two(f.date.month + 1), Two(f.date.day), hour, Two(f.minute), Two(f.second), Three(f.ms))
  }

  function Stamped(f: Fields): string
    requires ValidFields(f)
  {
    Stamp(f, Two(f.hour))
  }

  /** Math.round */
  function RoundedMinutes(diff: int): int {
    (diff + MS_PER_MINUTE / 2) / MS_PER_MINUTE
  }

  function Zone(offsetMinutes: int): string {
    var absOffset := if offsetMinutes < 0 then -offsetMinutes else offsetMinutes;
    (if offsetMinutes >= 0 then "+" else "-") + Pad2(Numeral(absOffset / 60)) + ":" + Pad2(Numeral(absOffset % 60))
  }

  /** The first instants of the years 1000 and 10000. */
  const YEAR_1000: int := -30_610_224_000_000
  const YEAR_10000: int := 253_402_300_800_000

  /** The local year has four digits and the offset rounds to less than a day. */
  predicate Printable(date: int, offset: int) {
    YEAR_1000 <= date + offset < YEAR_10000 && -1440 < RoundedMinutes(offset) < 1440
  }

  lemma YearBetweenIff(n: int)
    ensures 1000 <= YearOf(n) < 10000 <==> DayFromYear(1000) <= n < DayFromYear(10000)
  {
    hide DayFromYear;
    var year := YearOf(n);
    if year < 1000 { LaterYear(year + 1, 1000); } else { LaterYear(1000, year); }
    if year >= 10000 { LaterYear(10000, year); } else { LaterYear(year + 1, 10000); }
  }

  lemma FourDigitYearIff(local: int)
    ensures YEAR_1000 <= local < YEAR_10000 <==> FourDigits(FieldsOf(local))
  {
    assert DayFromYear(1000) * MS_PER_DAY == YEAR_1000 && DayFromYear(10000) * MS_PER_DAY == YEAR_10000;
    hide DayFromYear, YearOf;
    YearBetweenIff(local / MS_PER_DAY);
  }

  predicate FourDigits(f: Fields) {
    1000 <= f.date.year < 10000
  }

  /** `new Date(s)` reads the format of the standard; for other strings it is the platform's choice, given here as
      `legacy`, whether it finds a date in them and which. */
  function ParseDate(s: string, legacy: string -> Option<int>): Option<int> {
    if Read(s).Some? then Read(s) else legacy(s)
  }

  /** An invalid date makes every number NaN, which is not at least zero. */
  function OffsetText(utcDate: Option<int>, date: int): string {
    if utcDate.Some? then Zone(RoundedMinutes(utcDate.value - date)) else "-NaN:NaN"
  }

  /** The fields come from a formatter in the zone; the offset is worked out from them, by reading them back as if
      they were UTC. */
  function PrintFields(f: Fields, date: int, midnightIs24: bool, legacy: string -> Option<int>): string
    requires ValidFields(f)
  {
    var part := HourPart(f.hour, midnightIs24);
    var hour := if part == "24" then "00" else part;
    var stamp := Stamp(f, hour);
    stamp + OffsetText(ParseDate(stamp + "Z", legacy), date)
  }

  function ConvertDateToTimezone(date: int, offset: int, midnightIs24: bool, legacy: string -> Option<int>): string {
    PrintFields(FieldsOf(date + offset), date, midnightIs24, legacy)
  }

  lemma StampHour(hour: int, midnightIs24: bool)
    requires 0 <= hour < 24
    ensures var part := HourPart(hour, midnightIs24); (if part == "24" then "00" else part) == Two(hour)
  {
    NumberTwo(hour);
    NumberTwo(24);
    assert Two(24) == "24" && Two(0) == "00";
    assert Two(hour) == "24" ==> hour == 24;
  }

  lemma JoinParts(year: string, month: string, day: string, hour: string, minute: string, second: string, ms: string,
                  more: string)
    requires |ms| == 3 && |month| == 2 && |day| == 2 && |hour| == 2 && |minute| == 2 && |second| == 2
    ensures var s, k := Join(year, month, day, hour, minute, second, ms) + more, |year|;
            && |s| == k + 19 + |more| && s[k + 19..] == more
            && s[..k] == year && s[k + 1..k + 3] == month && s[k + 4..k + 6] == day && s[k + 7..k + 9] == hour
            && s[k + 10..k + 12] == minute && s[k + 13..k + 15] == second && s[k + 16..k + 19] == ms
            && s[k] == '-' && s[k + 3] == '-' && s[k + 6] == 'T' && s[k + 9] == ':' && s[k + 12] == ':' &&
               s[k + 15] == '.'
  {
  }

  /** The pieces of a printed string, wherever its year ends. */
  lemma StampParts(f: Fields, more: string)
    requires ValidFields(f)
    ensures var s, k := Stamped(f) + more, |YearText(f.date.year)|;
            && |s| == k + 19 + |more| && s[k + 19..] == more
            && s[..k] == YearText(f.date.year) && s[k + 1..k + 3] == Two(f.date.month + 1) &&
               s[k + 4..k + 6] == Two(f.date.day)
            && s[k + 7..k + 9] == Two(f.hour) && s[k + 10..k + 12] == Two(f.minute) &&
               s[k + 13..k + 15] == Two(f.second)
            && s[k + 16..k + 19] == Three(f.ms)
            && s[k] == '-' && s[k + 3] == '-' && s[k + 6] == 'T' && s[k + 9] == ':' && s[k + 12] == ':' &&
               s[k + 15] == '.'
  {
    hide Join, Two, Three, YearText;
    JoinParts(YearText(f.date.year), Two(f.date.month + 1), Two(f.date.day), Two(f.hour), Two(f.minute), Two(f.second),
              Three(f.ms), more);
  }

  /** The fields that the stamp shows to a reader who knows no eras. */
  function Shown(f: Fields): Fields {
    f.(date := f.date.(year := if f.date.year >= 1 then f.date.year else 1 - f.date.year))
  }

  lemma YearTextIs(year: int)
    ensures var y := if year >= 1 then year else 1 - year;
            AllDigits(YearText(year)) && ValueOf(YearText(year)) == y && YearText(year) != "" &&
                (|YearText(year)| == 4 <==> 1000 <= y < 10000)
  {
    var y := if year >= 1 then year else 1 - year;
    ValueOfNumeral(y);
    NumeralLength(y);
  }

  lemma NumbersShown(f: Fields)
    requires ValidFields(f)
    ensures AllDigits(Two(f.date.month + 1)) && ValueOf(Two(f.date.month + 1)) == f.date.month + 1
    ensures AllDigits(Two(f.date.day)) && ValueOf(Two(f.date.day)) == f.date.day
    ensures AllDigits(Two(f.hour)) && ValueOf(Two(f.hour)) == f.hour
    ensures AllDigits(Two(f.minute)) && ValueOf(Two(f.minute)) == f.minute
    ensures AllDigits(Two(f.second)) && ValueOf(Two(f.second)) == f.second
    ensures AllDigits(Three(f.ms)) && ValueOf(Three(f.ms)) == f.ms
  {
    hide Two, Three, ValueOf, AllDigits;
    NumberTwo(f.date.month + 1);
    NumberTwo(f.date.day);
    NumberTwo(f.hour);
    NumberTwo(f.minute);
    NumberTwo(f.second);
    NumberThree(f.ms);
  }

  /** A stamp with four characters for the year reads as what it shows, if there is such a day. */
  lemma ReadStampFields(f: Fields, more: string)
    requires ValidFields(f) && |YearText(f.date.year)| == 4
    ensures var s := Stamped(f) + more;
            |s| >= 23 && ReadFields(s[..23]) == if ValidFields(Shown(f)) then Some(Shown(f)) else None
  {
    hide Stamped, YearText, Two, Three, ValueOf, AllDigits, ValidCivil;
    StampParts(f, more);
    YearTextIs(f.date.year);
    NumbersShown(f);
    var s := Stamped(f) + more;
    assert s[..23][..4] == s[..4] && s[..23][5..7] == s[5..7] && s[..23][8..10] == s[8..10] &&
        s[..23][11..13] == s[11..13];
    assert s[..23][14..16] == s[14..16] && s[..23][17..19] == s[17..19] && s[..23][20..] == s[20..23];
  }

  /** A year of another length puts the separators in the wrong places. */
  lemma LongYear(f: Fields, more: string)
    requires ValidFields(f) && |YearText(f.date.year)| != 4
    ensures var s := Stamped(f) + more; |s| >= 23 ==> ReadFields(s[..23]) == None
  {
    hide Stamped, YearText, Two, Three, ValueOf;
    var s := Stamped(f) + more;
    var k := |YearText(f.date.year)|;
    StampParts(f, more);
    YearTextIs(f.date.year);
    NumbersShown(f);
    if |s| >= 23 {
      assert s[..23][4] == s[4] && s[..23][7] == s[7];
      if k >= 5 {
        assert s[4] == s[..k][4] && s[4] in YearText(f.date.year);
      } else if k == 1 {
        assert s[7] == 'T';
      } else {
        var month := Two(f.date.month + 1);
        assert s[k + 1] == s[k + 1..k + 3][0] && s[k + 2] == s[k + 1..k + 3][1];
        assert k >= 2 && month[0] in month && month[1] in month && s[4] in month;
      }
    }
  }

  lemma ReadZoneText(offsetMinutes: int, hours: string, minutes: string)
    requires |minutes| == 2 && |hours| >= 2
    ensures var s := (if offsetMinutes >= 0 then "+" else "-") + hours + ":" + minutes;
            s[1..|s| - 3] == hours && s[|s| - 2..] == minutes && |s| == |hours| + 4
  {
  }

  /** Sign, hours and minutes recompose to the offset if the hours are fewer than 24; otherwise nothing can be read. */
  lemma ReadPrintedZone(offsetMinutes: int)
    ensures ReadZone(Zone(offsetMinutes)) == if -1440 < offsetMinutes < 1440 then Some(offsetMinutes) else None
    ensures |Zone(offsetMinutes)| == 6 <==> -6000 < offsetMinutes < 6000
  {
    hide Numeral, Pad2, ValueOf, AllDigits;
    var absOffset := if offsetMinutes < 0 then -offsetMinutes else offsetMinutes;
    NumberPadded(absOffset / 60);
    NumberPadded(absOffset % 60);
    ReadZoneText(offsetMinutes, Pad2(Numeral(absOffset / 60)), Pad2(Numeral(absOffset % 60)));
  }

  lemma ZonesDiffer(m: int, n: int)
    requires Zone(m) == Zone(n)
    ensures m == n
  {
    var x, y := if m < 0 then -m else m, if n < 0 then -n else n;
    hide Numeral, Pad2, ValueOf, AllDigits;
    NumberPadded(x / 60);
    NumberPadded(x % 60);
    NumberPadded(y / 60);
    NumberPadded(y % 60);
    ReadZoneText(m, Pad2(Numeral(x / 60)), Pad2(Numeral(x % 60)));
    ReadZoneText(n, Pad2(Numeral(y / 60)), Pad2(Numeral(y % 60)));
    assert x / 60 == y / 60 && x % 60 == y % 60;
    assert x == x / 60 * 60 + x % 60 && y == y / 60 * 60 + y % 60;
    assert Zone(m)[0] == Zone(n)[0];
  }

  /** Which fields a stamp that is followed by a zone reads as. */
  lemma StampIs(f: Fields, zone: string)
    requires ValidFields(f)
    ensures var s := Stamped(f) + zone;
            && (FourDigits(f) ==> |s| == 23 + |zone| && ReadFields(s[..23]) == Some(f) && s[23..] == zone)
            && (!FourDigits(f) && |s| >= 23 && ReadFields(s[..23]).Some? ==>
                  f.date.year <= -999 && ReadFields(s[..23]) == Some(Shown(f)) && ValidFields(Shown(f)) &&
                      s[23..] == zone)
  {
    hide Stamped, YearText, Two, ReadFields, ValidCivil;
    YearTextIs(f.date.year);
    StampParts(f, zone);
    if |YearText(f.date.year)| == 4 { ReadStampFields(f, zone); } else { LongYear(f, zone); }
  }

  lemma PrintedParts(f: Fields, date: int, midnightIs24: bool, legacy: string -> Option<int>)
    requires ValidFields(f)
    ensures PrintFields(f, date, midnightIs24, legacy) ==
            Stamped(f) + OffsetText(ParseDate(Stamped(f) + "Z", legacy), date)
  {
    StampHour(f.hour, midnightIs24);
    hide Stamped, Zone, ParseDate, RoundedMinutes, Two, HourPart, ValidFields;
  }

  /** Before the offset is known, a four-digit stamp is read as if it were UTC. */
  lemma FourDigitsParse(f: Fields, legacy: string -> Option<int>)
    requires ValidFields(f) && FourDigits(f)
    ensures ParseDate(Stamped(f) + "Z", legacy) == Some(Instant(f))
  {
    hide Stamped, Two, ReadFields, Instant, ValidFields;
    StampIs(f, "Z");
  }

  /** A stamp from before the year -998 reads as a date two thousand years off. */
  lemma ErasApart(f: Fields)
    requires ValidFields(f) && f.date.year <= -999 && ValidFields(Shown(f))
    ensures Instant(Shown(f)) > Instant(f) + 3 * MS_PER_DAY
  {
    var year, shown := f.date.year, Shown(f);
    LaterYear(year + 2, shown.date.year);
    YearStep(year);
    YearStep(year + 1);
    DaysBeforeBounds(f.date.year, f.date.month);
    DaysBeforeBounds(shown.date.year, f.date.month);
  }

  lemma {:induction false} DaysBeforeBounds(year: int, month: int)
    requires 0 <= month <= 12
    ensures 0 <= DaysBefore(year, month) <= 31 * month
    decreases month
  {
    if month > 0 { DaysBeforeBounds(year, month - 1); }
  }

  lemma PrintedReadsBack(f: Fields, date: int, midnightIs24: bool, legacy: string -> Option<int>)
    requires ValidFields(f) && FourDigits(f)
    ensures var m := RoundedMinutes(Instant(f) - date);
            Read(PrintFields(f, date, midnightIs24, legacy)) ==
                if -1440 < m < 1440 then Some(Instant(f) - m * MS_PER_MINUTE) else None
  {
    hide ReadFields, ReadZone, Stamped, Zone, Instant, RoundedMinutes, ValidFields, PrintFields, ParseDate, Two;
    PrintedParts(f, date, midnightIs24, legacy);
    FourDigitsParse(f, legacy);
    var m := RoundedMinutes(Instant(f) - date);
    ReadPrintedZone(m);
    StampIs(f, Zone(m));
  }

  /** A stamp of a year long before the first is read as a date two thousand years later, which is no offset. */
  lemma ErasParse(f: Fields, zone: string, date: int, legacy: string -> Option<int>)
    requires ValidFields(f) && !FourDigits(f) && -MS_PER_DAY < Instant(f) - date < MS_PER_DAY
    requires var s := Stamped(f) + zone; |s| >= 23 && ReadFields(s[..23]).Some?
    ensures var utcDate := ParseDate(Stamped(f) + "Z", legacy);
            utcDate.Some? && RoundedMinutes(utcDate.value - date) >= 1440
  {
    hide ReadFields, Stamped, ValidFields, Two, Shown;
    StampIs(f, zone);
    ReadStampShown(f, zone, "Z");
    StampIs(f, "Z");
    ErasApart(f);
  }

  lemma PrintedCannotBeRead(f: Fields, date: int, midnightIs24: bool, legacy: string -> Option<int>)
    requires ValidFields(f) && !FourDigits(f) && -MS_PER_DAY < Instant(f) - date < MS_PER_DAY
    ensures Read(PrintFields(f, date, midnightIs24, legacy)) == None
  {
    hide ReadFields, ReadZone, Stamped, Zone, Instant, RoundedMinutes, ValidFields, PrintFields, ParseDate, Two,
        OffsetText;
    PrintedParts(f, date, midnightIs24, legacy);
    var utcDate := ParseDate(Stamped(f) + "Z", legacy);
    var zone := OffsetText(utcDate, date);
    StampIs(f, zone);
    var s := Stamped(f) + zone;
    if |s| >= 23 && ReadFields(s[..23]).Some? {
      ErasParse(f, zone, date, legacy);
      LargeOffset(utcDate, date);
    }
  }

  lemma LargeOffset(utcDate: Option<int>, date: int)
    requires utcDate.Some? && RoundedMinutes(utcDate.value - date) >= 1440
    ensures ReadZone(OffsetText(utcDate, date)) == None
  {
    hide Zone, ReadZone, RoundedMinutes;
    ReadPrintedZone(RoundedMinutes(utcDate.value - date));
  }

  /** What follows a stamp does not change how it reads. */
  lemma ReadStampShown(f: Fields, more: string, other: string)
    requires ValidFields(f)
    requires var s := Stamped(f) + more; |s| >= 23 && ReadFields(s[..23]).Some?
    ensures var s, r := Stamped(f) + more, Stamped(f) + other;
            |r| >= 23 && ReadFields(r[..23]) == ReadFields(s[..23])
  {
    hide ReadFields, Stamped, ValidFields, Two, YearText;
    if |YearText(f.date.year)| == 4 {
      ReadStampFields(f, more);
      ReadStampFields(f, other);
    } else {
      LongYear(f, more);
    }
  }

  /** For every instant and every offset a zone can have: the printed string reads back as the instant, moved by what
      the offset has beyond whole minutes, if the local year has four digits and the offset rounds to less than a day;
      otherwise it is no date in the grammar, whatever the platform made of the string in between. */
  lemma ReadsBack(date: int, offset: int, midnightIs24: bool, legacy: string -> Option<int>)
    requires -MS_PER_DAY < offset < MS_PER_DAY
    ensures Read(ConvertDateToTimezone(date, offset, midnightIs24, legacy)) ==
            if Printable(date, offset) then Some(date + offset - RoundedMinutes(offset) * MS_PER_MINUTE) else None
  {
    var f := FieldsOf(date + offset);
    FieldsRoundTrip(date + offset);
    FourDigitYearIff(date + offset);
    hide FieldsOf, Read, PrintFields, Instant, RoundedMinutes, ValidFields;
    assert Instant(f) - date == offset;
    if FourDigits(f) { PrintedReadsBack(f, date, midnightIs24, legacy); }
         else { PrintedCannotBeRead(f, date, midnightIs24, legacy); }
  }

  /** What can be read back is off by at most half a minute, and is exact just in zones of whole minutes. */
  lemma ExactInWholeMinutes(date: int, offset: int, midnightIs24: bool, legacy: string -> Option<int>)
    requires -MS_PER_DAY < offset < MS_PER_DAY
    ensures var r := Read(ConvertDateToTimezone(date, offset, midnightIs24, legacy));
            && (r.Some? <==> Printable(date, offset))
            && (r.Some? ==> -30_000 <= r.value - date < 30_000)
            && (r == Some(date) <==> Printable(date, offset) && offset % MS_PER_MINUTE == 0)
  {
    ReadsBack(date, offset, midnightIs24, legacy);
    RoundingError(offset);
  }

  lemma RoundingError(offset: int)
    ensures var e := offset - RoundedMinutes(offset) * MS_PER_MINUTE;
            -30_000 <= e < 30_000 && (e == 0 <==> offset % MS_PER_MINUTE == 0)
  {
  }

  lemma Separators(f: Fields, zone: string)
    requires ValidFields(f) && FourDigits(f)
    ensures var s := Stamped(f) + zone;
            |s| >= 23 && s[4] == s[7] == '-' && s[10] == 'T' && s[13] == s[16] == ':' && s[19] == '.'
  {
    hide Stamped, YearText, Two;
    YearTextIs(f.date.year);
    StampParts(f, zone);
  }

  /** The string shows the wall clock of the zone exactly when the local year has four digits. */
  lemma ShowsTheWallClock(date: int, offset: int, midnightIs24: bool, legacy: string -> Option<int>)
    ensures var s := ConvertDateToTimezone(date, offset, midnightIs24, legacy);
            && (|s| >= 23 && ReadFields(s[..23]) == Some(FieldsOf(date + offset)) <==>
                YEAR_1000 <= date + offset < YEAR_10000)
            && (YEAR_1000 <= date + offset < YEAR_10000 && -6000 < RoundedMinutes(offset) < 6000 ==> |s| == 29)
            && (YEAR_1000 <= date + offset < YEAR_10000 ==>
                  s[4] == s[7] == '-' && s[10] == 'T' && s[13] == s[16] == ':' && s[19] == '.')
  {
    var f := FieldsOf(date + offset);
    FieldsRoundTrip(date + offset);
    FourDigitYearIff(date + offset);
    hide FieldsOf, Stamped, Zone, Instant, ReadFields, ParseDate, ValidFields, PrintFields, Two;
    PrintedParts(f, date, midnightIs24, legacy);
    StampIs(f, OffsetText(ParseDate(Stamped(f) + "Z", legacy), date));
    if FourDigits(f) {
      FourDigitsParse(f, legacy);
      Separators(f, OffsetText(ParseDate(Stamped(f) + "Z", legacy), date));
    }
    ReadPrintedZone(RoundedMinutes(offset));
  }

  lemma StampsAlikeIff(f: Fields, g: Fields, x: string, y: string)
    requires ValidFields(f) && ValidFields(g)
    ensures Stamped(f) + x == Stamped(g) + y <==> Shown(f) == Shown(g) && x == y
  {
    var s, r := Stamped(f) + x, Stamped(g) + y;
    if Shown(f) == Shown(g) {
      assert Stamped(f) == Stamped(g) by { hide Join, Two, Three; }
      hide Stamped;
      StampParts(f, x);
      StampParts(g, y);
    } else {
      if s == r { AlikeShown(f, g, x, y); }
    }
  }

  /** A hyphen cannot lie among the digits of the year. */
  lemma DigitsUpTo(s: string, year: string, hyphen: nat)
    requires AllDigits(year) && year <= s && hyphen < |s| && s[hyphen] == '-'
    ensures |year| <= hyphen
  {
    assert forall i | 0 <= i < |year| :: s[i] == year[i] && year[i] in year;
  }

  lemma AlikeShown(f: Fields, g: Fields, x: string, y: string)
    requires ValidFields(f) && ValidFields(g) && Stamped(f) + x == Stamped(g) + y
    ensures Shown(f) == Shown(g)
  {
    hide Stamped, YearText, Two, Three, ValueOf;
    StampParts(f, x);
    StampParts(g, y);
    YearTextIs(f.date.year);
    YearTextIs(g.date.year);
    NumbersShown(f);
    NumbersShown(g);
    var s, k, l := Stamped(f) + x, |YearText(f.date.year)|, |YearText(g.date.year)|;
    assert k <= l by { DigitsUpTo(s, YearText(f.date.year), l); }
    assert l <= k by { DigitsUpTo(s, YearText(g.date.year), k); }
  }

  /** The same time on different days is at least a day apart, too far for one rounded offset. */
  lemma DaysApart(f: Fields, g: Fields, utcDate: int, date: int, other: int)
    requires ValidFields(f) && ValidFields(g) && Shown(f) == Shown(g) && Instant(f) - Instant(g) == date - other != 0
    ensures RoundedMinutes(utcDate - date) != RoundedMinutes(utcDate - other)
  {
    var d := ToDay(f.date) - ToDay(g.date);
    assert date - other == d * MS_PER_DAY by { hide ToDay; }
    assert d != 0;
    hide ToDay, Instant, ValidFields, Shown;
    assert utcDate - other == utcDate - date + d * MS_PER_DAY;
    RoundedShift(utcDate - date, d);
  }

  lemma RoundedShift(diff: int, d: int)
    ensures RoundedMinutes(diff + d * MS_PER_DAY) == RoundedMinutes(diff) + 1440 * d
  {
    assert diff + d * MS_PER_DAY + MS_PER_MINUTE / 2 == diff + MS_PER_MINUTE / 2 + 1440 * d * MS_PER_MINUTE;
  }

  lemma PrintFieldsAlikeIff(f: Fields, g: Fields, date: int, other: int, midnightIs24: bool,
                            legacy: string -> Option<int>)
    requires ValidFields(f) && ValidFields(g) && Instant(f) - Instant(g) == date - other != 0
    ensures PrintFields(f, date, midnightIs24, legacy) == PrintFields(g, other, midnightIs24, legacy) <==>
            Shown(f) == Shown(g) && ParseDate(Stamped(f) + "Z", legacy) == None
  {
    hide ValidFields, Instant, PrintFields, Stamped, ParseDate, Zone, RoundedMinutes, Shown;
    PrintedParts(f, date, midnightIs24, legacy);
    PrintedParts(g, other, midnightIs24, legacy);
    var u, v := ParseDate(Stamped(f) + "Z", legacy), ParseDate(Stamped(g) + "Z", legacy);
    StampsAlikeIff(f, g, OffsetText(u, date), OffsetText(v, other));
    if Shown(f) == Shown(g) {
      StampsAlikeIff(f, g, "Z", "Z");
      if u.Some? {
        DaysApart(f, g, u.value, date, other);
        if Zone(RoundedMinutes(u.value - date)) == Zone(RoundedMinutes(u.value - other)) {
          ZonesDiffer(RoundedMinutes(u.value - date), RoundedMinutes(u.value - other));
        }
      }
    }
  }

  /** Two instants print alike in one zone exactly when their wall clocks differ in nothing but the year, the years lie
      opposite each other on the two sides of the first, and the platform finds no date in the stamp. */
  lemma PrintsApart(date: int, other: int, offset: int, midnightIs24: bool, legacy: string -> Option<int>)
    requires date != other
    ensures var f, g := FieldsOf(date + offset), FieldsOf(other + offset);
            ConvertDateToTimezone(date, offset, midnightIs24, legacy) ==
                ConvertDateToTimezone(other, offset, midnightIs24, legacy) <==>
            f.date.year + g.date.year == 1 && Shown(f) == Shown(g) && ParseDate(Stamped(f) + "Z", legacy) == None
  {
    var f, g := FieldsOf(date + offset), FieldsOf(other + offset);
    FieldsRoundTrip(date + offset);
    FieldsRoundTrip(other + offset);
    hide FieldsOf, ValidFields, Instant, PrintFields, Stamped, ParseDate;
    PrintFieldsAlikeIff(f, g, date, other, midnightIs24, legacy);
    if Shown(f) == Shown(g) { OppositeYears(f, g); }
  }

  lemma OppositeYears(f: Fields, g: Fields)
    requires Shown(f) == Shown(g) && f != g
    ensures f.date.year + g.date.year == 1
  {
    assert f.date.month == g.date.month && f.date.day == g.date.day;
  }
}
