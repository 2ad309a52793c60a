/** RFC 3339 timestamps: the writer, the reader, and the envelope's stricter shape check.

    A text is given as its bytes, which are valid UTF-8, one character per byte; every byte that matters is ASCII.
    Times are whole seconds since 1970-01-01T00:00:00Z. */
module Timestamps {
  import opened Wrappers
  import opened Decimals
  import opened Calendar

  const LAST_OF_9999: int := 253402300799

  // ---- writing ----

  /** Dates from 1970 on have positive years. */
  lemma FromTheEpoch(days: int)
    requires days >= 0
    ensures ValidDate(CivilFromDays(days)) && CivilFromDays(days).year >= 1970
  {
    DaysRoundTrip(days);
    EpochIsDayZero();
    if CivilFromDays(days).year < 1970 {
      OrderAgrees(CivilFromDays(days), Date(1970, 1, 1));
    }
  }

  function FormatEpochSeconds(seconds: nat): string {
    var d := CivilFromDays(seconds / 86400);
    var time := seconds % 86400;
    FromTheEpoch(seconds / 86400);
    Written(d, time / 3600, time % 3600 / 60, time % 60)
  }

  /** The fields as they are laid out; a year of more than four digits takes as many as it needs. */
  function Written(d: Date, hour: nat, minute: nat, second: nat): string
    requires d.year >= 0 && d.month >= 0 && d.day >= 0
  {
    Padded(d.year, 4) + "-" + Padded(d.month, 2) + "-" + Padded(d.day, 2) + "T"
    + Padded(hour, 2) + ":" + Padded(minute, 2) + ":" + Padded(second, 2) + "Z"
  }

  /** A time before 1970 is written as 1970. */
  function Format(time: int): string {
    FormatEpochSeconds(Max(time, 0))
  }

  // ---- reading ----

  datatype Fields = Fields(year: int, month: int, day: int, hour: int, minute: int, second: int)

  function ReadFields(text: string): Option<Fields>
    requires |text| >= 19
  {
    var year, month, day := ReadInt(text[0..4]), ReadInt(text[5..7]), ReadInt(text[8..10]);
    var hour, minute, second := ReadInt(text[11..13]), ReadInt(text[14..16]), ReadInt(text[17..19]);
    if year.None? || month.None? || day.None? || hour.None? || minute.None? || second.None? then None
    else Some(Fields(year.value, month.value, day.value, hour.value, minute.value, second.value))
  }

  predicate Separators(text: string)
    requires |text| >= 19
  {
    text[4] == '-' && text[7] == '-' && (text[10] == 'T' || text[10] == 't') && text[13] == ':' && text[16] == ':'
  }

  predicate InRange(f: Fields) {
    1 <= f.month <= 12 && 1 <= f.day <= 31 && f.hour <= 23 && f.minute <= 59 && f.second <= 60
  }

  /** The fraction, if any, is read past and discarded. */
  function SkipFraction(rest: string): string {
    if rest != [] && rest[0] == '.' then rest[1..][DigitRun(rest[1..])..] else rest
  }

  function ReadZone(zone: string): Option<int> {
    if |zone| == 1 && (zone[0] == 'Z' || zone[0] == 'z') then Some(0)
    else if |zone| == 6 && (zone[0] == '+' || zone[0] == '-') then
      var hours, minutes := ReadInt(zone[1..3]), ReadInt(zone[4..6]);
      if hours.None? || minutes.None? then None
      else
        var magnitude := hours.value * 3600 + minutes.value * 60;
        Some(if zone[0] == '-' then -magnitude else magnitude)
    else None
  }

  function Instant(f: Fields, offset: int): int {
    DaysFromCivil(Date(f.year, f.month, f.day)) * 86400 + f.hour * 3600 + f.minute * 60 + f.second - offset
  }

  /** Read a timestamp, or nothing. What is read beyond the grammar is set out in `LaxTimestamps`. */
  function Parse(text: string): Option<int> {
    if |text| < 20 then None
    else
      var f := ReadFields(text);
      if f.None? || !Separators(text) || !InRange(f.value) then None
      else
        var offset := ReadZone(SkipFraction(text[19..]));
        if offset.None? then None else Some(Instant(f.value, offset.value))
  }
}
