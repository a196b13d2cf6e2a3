/** The two date formats of the state manager, read at fixed width:
    `start_time` is parsed with "%Y-%m-%dT%H:%M:%S%z", which reads
    `YYYY-MM-DDTHH:MM:SS±ZZZZ`, and the day key is rendered with "%Y-%m-%d",
    which writes `YYYY-MM-DD`. The day key is the date of the parsed instant in
    its own offset; no timezone conversion takes place. */
module Timestamps {
  import opened Wrappers

  /** The length of `YYYY-MM-DDTHH:MM:SS±ZZZZ`. */
  const TimestampLength: nat := 24
  /** The length of `YYYY-MM-DD`. */
  const DayKeyLength: nat := 10

  /** A parsed timestamp: a date, a wall-clock time and the offset from UTC in
      minutes (east positive). */
  datatype DateTime = DateTime(
    year: int, month: int, day: int,
    hour: int, minute: int, second: int,
    utcOffset: int)

  predicate IsDigit(c: char) {
    '0' <= c <= '9'
  }

  predicate AllDigits(s: string) {
    forall i :: 0 <= i < |s| ==> IsDigit(s[i])
  }

  function DigitValue(c: char): nat
    requires IsDigit(c)
  {
    c as int - '0' as int
  }

  function DigitChar(n: nat): char
    requires n < 10
  {
    ('0' as int + n) as char
  }

  function Pow10(w: nat): (r: nat)
    ensures r >= 1
  {
    if w == 0 then 1 else 10 * Pow10(w - 1)
  }

  /** The value of a string of decimal digits. */
  function Number(s: string): (n: nat)
    requires AllDigits(s)
    ensures n < Pow10(|s|)
    decreases |s|
  {
    if s == [] then 0 else Number(s[..|s| - 1]) * 10 + DigitValue(s[|s| - 1])
  }

  /** `n` written with exactly `w` decimal digits, zero-padded on the left. */
  function Pad(n: nat, w: nat): (s: string)
    ensures |s| == w && AllDigits(s)
  {
    if w == 0 then [] else Pad(n / 10, w - 1) + [DigitChar(n % 10)]
  }

  predicate IsLeapYear(y: int) {
    y % 4 == 0 && (y % 100 != 0 || y % 400 == 0)
  }

  function DaysInMonth(y: int, m: int): int {
    if m == 2 then (if IsLeapYear(y) then 29 else 28)
    else if m == 4 || m == 6 || m == 9 || m == 11 then 30
    else 31
  }

  /** The instants the parser accepts: a real calendar date in years 1 to
      9999, a time of day with at most 59 seconds, and an offset of less than
      a day. */
  predicate ValidDateTime(t: DateTime) {
    && 1 <= t.year <= 9999
    && 1 <= t.month <= 12
    && 1 <= t.day <= DaysInMonth(t.year, t.month)
    && 0 <= t.hour <= 23
    && 0 <= t.minute <= 59
    && 0 <= t.second <= 59
    && -1440 < t.utcOffset < 1440
  }

  /** The character layout `YYYY-MM-DDTHH:MM:SS±ZZZZ`, the offset's minutes
      below 60. */
  predicate MatchesLayout(s: string) {
    && |s| == TimestampLength
    && AllDigits(s[0..4]) && s[4] == '-'
    && AllDigits(s[5..7]) && s[7] == '-'
    && AllDigits(s[8..10]) && s[10] == 'T'
    && AllDigits(s[11..13]) && s[13] == ':'
    && AllDigits(s[14..16]) && s[16] == ':'
    && AllDigits(s[17..19])
    && (s[19] == '+' || s[19] == '-')
    && AllDigits(s[20..22]) && AllDigits(s[22..24]) && s[22] <= '5'
  }

  /** The fields of a string in the layout, read as numbers. */
  function Fields(s: string): DateTime
    requires MatchesLayout(s)
  {
    var offset := Number(s[20..22]) * 60 + Number(s[22..24]);
    DateTime(
      Number(s[0..4]), Number(s[5..7]), Number(s[8..10]),
      Number(s[11..13]), Number(s[14..16]), Number(s[17..19]),
      if s[19] == '-' then -offset else offset)
  }

  predicate WellFormedTimestamp(s: string) {
    MatchesLayout(s) && ValidDateTime(Fields(s))
  }

  /** `datetime.strptime(s, "%Y-%m-%dT%H:%M:%S%z")`; a string it rejects is
      returned as the failure (Python raises `ValueError`). */
  function ParseTimestamp(s: string): Result<DateTime, string> {
    if WellFormedTimestamp(s) then Success(Fields(s)) else Failure(s)
  }

  /** `t.strftime("%Y-%m-%d")`. */
  function FormatDayKey(t: DateTime): string
    requires ValidDateTime(t)
  {
    Pad(t.year, 4) + "-" + Pad(t.month, 2) + "-" + Pad(t.day, 2)
  }

  /** `t.strftime("%H:%M:%S")`. */
  function FormatClock(t: DateTime): string
    requires ValidDateTime(t)
  {
    Pad(t.hour, 2) + ":" + Pad(t.minute, 2) + ":" + Pad(t.second, 2)
  }

  /** `t.strftime("%z")`: the sign, then hours and minutes of the offset. */
  function FormatOffset(t: DateTime): string
    requires ValidDateTime(t)
  {
    var offset := if t.utcOffset < 0 then -t.utcOffset else t.utcOffset;
    (if t.utcOffset < 0 then "-" else "+") + Pad(offset / 60, 2) + Pad(offset % 60, 2)
  }

  /** `t.strftime("%Y-%m-%dT%H:%M:%S%z")`. */
  function FormatTimestamp(t: DateTime): string
    requires ValidDateTime(t)
  {
    FormatDayKey(t) + "T" + FormatClock(t) + FormatOffset(t)
  }

  /** `_simplify_date_string`: parse, then render the date part. */
  function SimplifyDateString(s: string): Result<string, string> {
    match ParseTimestamp(s)
    case Success(t) => Success(FormatDayKey(t))
    case Failure(e) => Failure(e)
  }

  /** Rendering the digits of a number gives back the digits. */
  lemma {:induction false} PadNumber(s: string)
    requires AllDigits(s)
    ensures Pad(Number(s), |s|) == s
    decreases |s|
  {
    if s != [] {
      var p, c := s[..|s| - 1], s[|s| - 1];
      assert AllDigits(p);
      PadNumber(p);
      var n := Number(p) * 10 + DigitValue(c);
      DivModTen(Number(p), DigitValue(c));
      assert Pad(n, |s|) == Pad(Number(p), |p|) + [DigitChar(DigitValue(c))];
      assert s == p + [c];
    }
  }

  lemma DivModTen(q: nat, r: nat)
    requires r < 10
    ensures (q * 10 + r) / 10 == q && (q * 10 + r) % 10 == r
  {
  }

  /** Reading back a number rendered in enough digits gives the number. */
  lemma {:induction false} NumberPad(n: nat, w: nat)
    requires n < Pow10(w)
    ensures Number(Pad(n, w)) == n
    decreases w
  {
    if w > 0 {
      var p := Pad(n / 10, w - 1);
      NumberPad(n / 10, w - 1);
      assert Pad(n, w)[..w - 1] == p;
      assert n == (n / 10) * 10 + n % 10;
    }
  }

  /** The day key of a timestamp is its first ten characters, the date part,
      exactly when the timestamp parses; otherwise the string is rejected. */
  lemma SimplifyDateStringIsDatePart(s: string)
    ensures SimplifyDateString(s)
         == if WellFormedTimestamp(s) then Success(s[..DayKeyLength]) else Failure(s)
  {
    if WellFormedTimestamp(s) {
      PadNumber(s[0..4]);
      PadNumber(s[5..7]);
      PadNumber(s[8..10]);
      assert s[..10] == s[0..4] + [s[4]] + s[5..7] + [s[7]] + s[8..10];
    }
  }

  /** Two well-formed timestamps share a day key exactly when they share a
      date part: timestamps on different dates are told apart, whatever their
      time of day or offset. */
  lemma SameDayKeyIffSameDate(s: string, t: string)
    requires WellFormedTimestamp(s) && WellFormedTimestamp(t)
    ensures SimplifyDateString(s) == SimplifyDateString(t) <==> s[..DayKeyLength] == t[..DayKeyLength]
  {
    SimplifyDateStringIsDatePart(s);
    SimplifyDateStringIsDatePart(t);
  }

  /** Where each field lands in a rendered timestamp. */
  lemma FormatTimestampSlices(t: DateTime)
    requires ValidDateTime(t)
    ensures var s, offset := FormatTimestamp(t), if t.utcOffset < 0 then -t.utcOffset else t.utcOffset;
      && |s| == TimestampLength
      && s[0..4] == Pad(t.year, 4) && s[4] == '-'
      && s[5..7] == Pad(t.month, 2) && s[7] == '-'
      && s[8..10] == Pad(t.day, 2) && s[10] == 'T'
      && s[11..13] == Pad(t.hour, 2) && s[13] == ':'
      && s[14..16] == Pad(t.minute, 2) && s[16] == ':'
      && s[17..19] == Pad(t.second, 2)
      && s[19] == (if t.utcOffset < 0 then '-' else '+')
      && s[20..22] == Pad(offset / 60, 2)
      && s[22..24] == Pad(offset % 60, 2)
  {
    var date, clock, zone := FormatDayKey(t), FormatClock(t), FormatOffset(t);
    var s := FormatTimestamp(t);
    assert s == date + "T" + clock + zone;
    assert s[..10] == date;
    assert s[11..19] == clock;
    assert s[19..] == zone;
  }

  /** Parsing a rendered timestamp gives back the instant. */
  lemma ParseFormatRoundTrip(t: DateTime)
    requires ValidDateTime(t)
    ensures ParseTimestamp(FormatTimestamp(t)) == Success(t)
  {
    FormatFields(t);
  }

  /** The fields read back from a rendered timestamp are its own. */
  lemma FormatFields(t: DateTime)
    requires ValidDateTime(t)
    ensures MatchesLayout(FormatTimestamp(t)) && Fields(FormatTimestamp(t)) == t
  {
    FormatMatchesLayout(t);
    FormatDateFields(t);
    FormatOffsetField(t);
  }

  lemma FormatDateFields(t: DateTime)
    requires ValidDateTime(t)
    ensures var s := FormatTimestamp(t);
            && AllDigits(s[0..4]) && AllDigits(s[5..7]) && AllDigits(s[8..10])
            && AllDigits(s[11..13]) && AllDigits(s[14..16]) && AllDigits(s[17..19])
            && Number(s[0..4]) == t.year && Number(s[5..7]) == t.month && Number(s[8..10]) == t.day
            && Number(s[11..13]) == t.hour && Number(s[14..16]) == t.minute && Number(s[17..19]) == t.second
  {
    FormatTimestampSlices(t);
    NumberPad(t.year, 4);
    NumberPad(t.month, 2);
    NumberPad(t.day, 2);
    NumberPad(t.hour, 2);
    NumberPad(t.minute, 2);
    NumberPad(t.second, 2);
  }

  lemma FormatOffsetField(t: DateTime)
    requires ValidDateTime(t)
    ensures var s := FormatTimestamp(t);
            && AllDigits(s[20..22]) && AllDigits(s[22..24])
            && (var offset := Number(s[20..22]) * 60 + Number(s[22..24]);
                (if s[19] == '-' then -offset else offset) == t.utcOffset)
  {
    FormatTimestampSlices(t);
    OffsetDigits(if t.utcOffset < 0 then -t.utcOffset else t.utcOffset);
  }

  /** A rendered timestamp has the layout the parser expects. */
  lemma FormatMatchesLayout(t: DateTime)
    requires ValidDateTime(t)
    ensures MatchesLayout(FormatTimestamp(t))
  {
    FormatTimestampSlices(t);
    PadTens((if t.utcOffset < 0 then -t.utcOffset else t.utcOffset) % 60);
  }

  /** The hours and minutes of an offset below a day read back from their
      two-digit renderings, the minutes' tens digit at most 5. */
  lemma OffsetDigits(offset: nat)
    requires offset < 1440
    ensures Number(Pad(offset / 60, 2)) == offset / 60
    ensures Number(Pad(offset % 60, 2)) == offset % 60
    ensures Pad(offset % 60, 2)[0] <= '5'
    ensures (offset / 60) * 60 + offset % 60 == offset
  {
    NumberPad(offset / 60, 2);
    NumberPad(offset % 60, 2);
    PadTens(offset % 60);
  }

  /** A number below 60 written in two digits has a tens digit of at most 5. */
  lemma PadTens(n: nat)
    requires n < 60
    ensures Pad(n, 2)[0] <= '5'
  {
  }

  lemma EpochPads()
    ensures Pad(1970, 4) == "1970" && Pad(1, 2) == "01" && Pad(0, 2) == "00"
  {
    assert DigitChar(0) == '0' && DigitChar(1) == '1' && DigitChar(7) == '7' && DigitChar(9) == '9';
    assert Pad(0, 1) == "0" && Pad(1, 1) == "1";
    assert Pad(19, 2) == "19";
    assert Pad(197, 3) == "197";
  }

  /** The epoch, rendered. */
  lemma EpochRendering()
    ensures FormatDayKey(DateTime(1970, 1, 1, 0, 0, 0, 0)) == "1970-01-01"
    ensures FormatTimestamp(DateTime(1970, 1, 1, 0, 0, 0, 0)) == "1970-01-01T00:00:00+0000"
  {
    var t := DateTime(1970, 1, 1, 0, 0, 0, 0);
    EpochPads();
    assert FormatDayKey(t) == "1970-01-01";
    assert FormatClock(t) == "00:00:00";
    assert FormatOffset(t) == "+0000";
    EpochText();
  }

  lemma EpochText()
    ensures "1970-01-01" + "T" + "00:00:00" + "+0000" == "1970-01-01T00:00:00+0000"
  {
  }

  /** The default start time of the trips in the unit tests has the day key
      `1970-01-01`: it is the rendering of the epoch, which parses back. */
  lemma EpochExample()
    ensures SimplifyDateString("1970-01-01T00:00:00+0000") == Success("1970-01-01")
  {
    EpochRendering();
    ParseFormatRoundTrip(DateTime(1970, 1, 1, 0, 0, 0, 0));
  }

  /** A space in place of the `T` is rejected. */
  lemma SpaceExample()
    ensures SimplifyDateString("1970-01-01 00:00:00+0000") == Failure("1970-01-01 00:00:00+0000")
  {
    var s := "1970-01-01 00:00:00+0000";
    assert s[10] == ' ';
    SimplifyDateStringIsDatePart(s);
  }
}
