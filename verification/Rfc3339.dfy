/** The timestamp grammar of section 5.6 of RFC 3339, and that writer, reader and shape check agree on it. */
module Rfc3339 {
  import opened Wrappers
  import opened Decimals
  import opened Calendar
  import opened Timestamps

  // ---- the grammar ----

  datatype Zone = Zulu | Offset(negative: bool, hours: nat, minutes: nat)

  /** A timestamp by its parts; the fraction is empty or a run of digits after a dot. */
  datatype Stamp = Stamp(
    year: nat, month: nat, day: nat, hour: nat, minute: nat, second: nat, fraction: string, zone: Zone)

  predicate ZoneOk(z: Zone) {
    z.Offset? ==> z.hours < 100 && z.minutes < 100
  }

  predicate WellFormed(s: Stamp) {
    && s.year < 10000 && 1 <= s.month <= 12 && 1 <= s.day <= 31
    && s.hour <= 23 && s.minute <= 59 && s.second <= 60
    && AllDigits(s.fraction) && ZoneOk(s.zone)
  }

  function ZoneText(z: Zone): (t: string)
    requires ZoneOk(z)
    ensures |t| > 0
  {
    match z
    case Zulu => "Z"
    case Offset(negative, hours, minutes) => [if negative then '-' else '+'] + Two(hours) + ":" + Two(minutes)
  }

  function FractionText(fraction: string): string {
    if fraction == "" then "" else "." + fraction
  }

  /** `YYYY-MM-DDTHH:MM:SS`. */
  function Head(s: Stamp): (t: string)
    requires WellFormed(s)
    ensures |t| == 19
  {
    Four(s.year) + "-" + Two(s.month) + "-" + Two(s.day) + "T" + Two(s.hour) + ":" + Two(s.minute) + ":" + Two(s.second)
  }

  function Render(s: Stamp): string
    requires WellFormed(s)
  {
    Head(s) + (FractionText(s.fraction) + ZoneText(s.zone))
  }

  function OffsetSeconds(z: Zone): int {
    match z
    case Zulu => 0
    case Offset(negative, hours, minutes) =>
      if negative then -(hours * 3600 + minutes * 60) else hours * 3600 + minutes * 60
  }

  /** The instant a timestamp names: its local time less its offset. A day beyond the end of its month counts
      on into the next, and second sixty is the first of the next minute. */
  function Named(s: Stamp): int {
    DaysFromCivil(Date(s.year, s.month, s.day)) * 86400 + s.hour * 3600 + s.minute * 60 + s.second - OffsetSeconds(s.zone)
  }

  // ---- reading what the grammar writes ----

  lemma HeadSlices(s: Stamp, tail: string)
    requires WellFormed(s)
    ensures var t := Head(s) + tail;
            && t[0..4] == Four(s.year) && t[5..7] == Two(s.month) && t[8..10] == Two(s.day)
            && t[11..13] == Two(s.hour) && t[14..16] == Two(s.minute) && t[17..19] == Two(s.second)
            && t[19..] == tail
  {
  }

  lemma HeadSeparators(s: Stamp, tail: string)
    requires WellFormed(s)
    ensures Separators(Head(s) + tail) && (Head(s) + tail)[10] == 'T'
  {
  }

  lemma HeadReads(s: Stamp, tail: string)
    requires WellFormed(s)
    ensures ReadFields(Head(s) + tail) == Some(Fields(s.year, s.month, s.day, s.hour, s.minute, s.second))
  {
    HeadSlices(s, tail);
    ReadFour(s.year);
    ReadTwo(s.month);
    ReadTwo(s.day);
    ReadTwo(s.hour);
    ReadTwo(s.minute);
    ReadTwo(s.second);
  }

  lemma FractionSkipped(fraction: string, zone: Zone)
    requires AllDigits(fraction) && ZoneOk(zone)
    ensures SkipFraction(FractionText(fraction) + ZoneText(zone)) == ZoneText(zone)
  {
    ZoneStarts(zone);
    TextSkipped(fraction, ZoneText(zone));
  }

  lemma ZoneStarts(zone: Zone)
    requires ZoneOk(zone)
    ensures ZoneText(zone)[0] in ['Z', '+', '-']
  {
  }

  lemma TextSkipped(fraction: string, rest: string)
    requires AllDigits(fraction) && rest != [] && rest[0] != '.' && !IsDigit(rest[0])
    ensures SkipFraction(FractionText(fraction) + rest) == rest
  {
    var tail := FractionText(fraction) + rest;
    if fraction == "" {
      assert tail == rest;
    } else {
      assert tail[1..] == fraction + rest;
      RunEnds(fraction, rest);
      assert tail[1..][|fraction|..] == rest;
    }
  }

  lemma ZoneReads(z: Zone)
    requires ZoneOk(z)
    ensures ReadZone(ZoneText(z)) == Some(OffsetSeconds(z))
  {
    if z.Offset? {
      var t := ZoneText(z);
      assert t[1..3] == Two(z.hours) && t[4..6] == Two(z.minutes);
      ReadTwo(z.hours);
      ReadTwo(z.minutes);
    }
  }

  function StampFields(s: Stamp): Fields {
    Fields(s.year, s.month, s.day, s.hour, s.minute, s.second)
  }

  lemma NamedIsInstant(s: Stamp)
    ensures Named(s) == Instant(StampFields(s), OffsetSeconds(s.zone))
  {
  }

  /** The reader gives every timestamp of the grammar its instant. */
  lemma ReadsTheGrammar(s: Stamp)
    requires WellFormed(s)
    ensures Parse(Render(s)) == Some(Named(s))
  {
    ReadsFields(s);
    NamedIsInstant(s);
  }

  lemma TailReads(s: Stamp)
    requires WellFormed(s)
    ensures FractionText(s.fraction) + ZoneText(s.zone) != ""
    ensures ReadZone(SkipFraction(FractionText(s.fraction) + ZoneText(s.zone))) == Some(OffsetSeconds(s.zone))
  {
    FractionSkipped(s.fraction, s.zone);
    ZoneReads(s.zone);
  }

  lemma ReadsFields(s: Stamp)
    requires WellFormed(s)
    ensures Parse(Render(s)) == Some(Instant(StampFields(s), OffsetSeconds(s.zone)))
  {
    var tail := FractionText(s.fraction) + ZoneText(s.zone);
    TailReads(s);
    HeadReads(s, tail);
    HeadTail(s, tail);
    HeadSeparators(s, tail);
  }

  lemma HeadTail(s: Stamp, tail: string)
    requires WellFormed(s)
    ensures |Head(s) + tail| == 19 + |tail| && (Head(s) + tail)[19..] == tail
  {
  }

  // ---- the writer writes the grammar ----

  lemma LastDay()
    ensures DaysFromCivil(Date(9999, 12, 31)) == 2932896
  {
  }

  /** A day from 1970 on has a four-digit year exactly when it is no later than the last of 9999. */
  lemma FourDigitYears(days: int)
    requires days >= 0
    ensures CivilFromDays(days).year <= 9999 <==> days <= 2932896
  {
    var d, last := CivilFromDays(days), Date(9999, 12, 31);
    DaysRoundTrip(days);
    LastDay();
    OrderAgrees(d, last);
    OrderAgrees(last, d);
  }

  function StampOf(time: nat): Stamp {
    var d := CivilFromDays(time / 86400);
    FromTheEpoch(time / 86400);
    var t := time % 86400;
    Stamp(d.year, d.month, d.day, t / 3600, t % 3600 / 60, t % 60, "", Zulu)
  }

  lemma ClockParts(t: int)
    requires 0 <= t < 86400
    ensures 0 <= t / 3600 <= 23 && 0 <= t % 3600 / 60 <= 59 && 0 <= t % 60 <= 59
    ensures t / 3600 * 3600 + t % 3600 / 60 * 60 + t % 60 == t
  {
  }

  lemma StampOfWellFormed(time: nat)
    requires time <= LAST_OF_9999
    ensures WellFormed(StampOf(time)) && Named(StampOf(time)) == time
  {
    FromTheEpoch(time / 86400);
    FourDigitYears(time / 86400);
    ClockParts(time % 86400);
    DaysRoundTrip(time / 86400);
  }

  lemma FormatRenders(time: nat)
    requires time <= LAST_OF_9999
    ensures WellFormed(StampOf(time)) && Format(time) == Render(StampOf(time))
  {
    StampOfWellFormed(time);
    WrittenRenders(StampOf(time), Date(StampOf(time).year, StampOf(time).month, StampOf(time).day));
  }

  lemma WrittenRenders(s: Stamp, d: Date)
    requires WellFormed(s) && s.fraction == "" && s.zone == Zulu && d == Date(s.year, s.month, s.day)
    ensures Written(d, s.hour, s.minute, s.second) == Render(s)
  {
    PaddedFour(s.year);
    PaddedTwo(s.month);
    PaddedTwo(s.day);
    PaddedTwo(s.hour);
    PaddedTwo(s.minute);
    PaddedTwo(s.second);
    assert FractionText(s.fraction) + ZoneText(s.zone) == "Z";
  }

  lemma {:induction false} PaddedDigits(n: nat, width: nat)
    ensures AllDigits(Padded(n, width))
    ensures n >= 10000 ==> |Padded(n, width)| >= 5
  {
    assert Pow10(1) == 10 && Pow10(2) == 100 && Pow10(3) == 1000 && Pow10(4) == 10000;
    DecimalWidth(n, 4);
  }

  /** Beyond the year 9999 the year takes five digits, and the reader refuses what the writer wrote. */
  lemma LongYearUnreadable(time: nat)
    requires time > LAST_OF_9999
    ensures Parse(Format(time)) == None
  {
    FromTheEpoch(time / 86400);
    FourDigitYears(time / 86400);
    var t := time % 86400;
    LongYearWritten(CivilFromDays(time / 86400), t / 3600, t % 3600 / 60, t % 60);
  }

  lemma LongYearWritten(d: Date, hour: nat, minute: nat, second: nat)
    requires d.year >= 10000 && d.month >= 0 && d.day >= 0
    ensures Parse(Written(d, hour, minute, second)) == None
  {
    PaddedDigits(d.year, 4);
    var text := Written(d, hour, minute, second);
    assert text[4] == Padded(d.year, 4)[4];
    assert IsDigit(text[4]);
  }

  /** Writing an instant from 1970 on and reading it back gives the instant, exactly up to the last second of the
      year 9999. */
  lemma TimestampRoundTrip(time: nat)
    ensures Parse(Format(time)) == Some(time) <==> time <= LAST_OF_9999
  {
    if time <= LAST_OF_9999 {
      FormatRenders(time);
      StampOfWellFormed(time);
      ReadsTheGrammar(StampOf(time));
    } else {
      LongYearUnreadable(time);
    }
  }
}
