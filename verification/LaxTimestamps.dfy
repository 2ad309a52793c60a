/** Exactly which texts the reader of timestamps takes, as which instants, and which of them are timestamps of the
    grammar.

    A text is the bytes of valid UTF-8, one character per byte, as in `Timestamps`. */
module LaxTimestamps {
  import opened Wrappers
  import opened Decimals
  import opened Calendar
  import opened Timestamps
  import opened Rfc3339
  import opened EnvelopeCheck

  // ---- the form the reader takes ----

  /** A field as the reader takes it: a sign or none, then digits. */
  datatype Numeral = Numeral(sign: string, digits: string)

  predicate NumeralOk(n: Numeral, width: nat) {
    n.sign in ["", "+", "-"] && n.digits != "" && AllDigits(n.digits) && |n.sign| + |n.digits| == width
  }

  function NumeralText(n: Numeral): string {
    n.sign + n.digits
  }

  function Value(n: Numeral): int
    requires AllDigits(n.digits)
  {
    var magnitude: int := Number(n.digits);
    if n.sign == "-" then -magnitude else magnitude
  }

  datatype LaxZone =
    | LaxZulu(letter: char)
    | LaxOffset(direction: char, hours: Numeral, between: char, minutes: Numeral)

  /** `fraction` is what follows a dot, if there is one; it may be empty. */
  datatype Lax = Lax(
    year: Numeral, month: Numeral, day: Numeral, separator: char, hour: Numeral, minute: Numeral, second: Numeral,
    fraction: Option<string>, zone: LaxZone)

  predicate LaxZoneOk(z: LaxZone) {
    match z
    case LaxZulu(letter) => letter in ['Z', 'z']
    case LaxOffset(direction, hours, _, minutes) => direction in ['+', '-'] && NumeralOk(hours, 2) && NumeralOk(minutes, 2)
  }

  predicate Widths(l: Lax) {
    && NumeralOk(l.year, 4) && NumeralOk(l.month, 2) && NumeralOk(l.day, 2)
    && NumeralOk(l.hour, 2) && NumeralOk(l.minute, 2) && NumeralOk(l.second, 2)
  }

  function LaxFields(l: Lax): Fields
    requires Widths(l)
  {
    Fields(Value(l.year), Value(l.month), Value(l.day), Value(l.hour), Value(l.minute), Value(l.second))
  }

  /** Month and day are bounded on both sides; hour, minute and second only from above, so they may be negative. */
  predicate LaxOk(l: Lax) {
    && Widths(l) && l.separator in ['T', 't'] && InRange(LaxFields(l))
    && (l.fraction.Some? ==> AllDigits(l.fraction.value)) && LaxZoneOk(l.zone)
  }

  function LaxZoneText(z: LaxZone): (t: string)
    ensures t != ""
  {
    match z
    case LaxZulu(letter) => [letter]
    case LaxOffset(direction, hours, between, minutes) => [direction] + NumeralText(hours) + [between] + NumeralText(minutes)
  }

  function LaxFraction(fraction: Option<string>): string {
    if fraction.None? then "" else "." + fraction.value
  }

  function LaxTail(l: Lax): string {
    LaxFraction(l.fraction) + LaxZoneText(l.zone)
  }

  function Three(a: Numeral, b: Numeral, c: Numeral, between: string): string {
    NumeralText(a) + between + NumeralText(b) + between + NumeralText(c)
  }

  function LaxHead(l: Lax): string {
    Three(l.year, l.month, l.day, "-") + [l.separator] + Three(l.hour, l.minute, l.second, ":")
  }

  function LaxText(l: Lax): string {
    LaxHead(l) + LaxTail(l)
  }

  function LaxOffsetSeconds(z: LaxZone): int
    requires LaxZoneOk(z)
  {
    match z
    case LaxZulu(_) => 0
    case LaxOffset(direction, hours, _, minutes) =>
      var magnitude := Value(hours) * 3600 + Value(minutes) * 60;
      if direction == '-' then -magnitude else magnitude
  }

  /** The instant a text of the form is read as. */
  function LaxInstant(l: Lax): int
    requires LaxOk(l)
  {
    DaysFromCivil(Date(Value(l.year), Value(l.month), Value(l.day))) * 86400
    + Value(l.hour) * 3600 + Value(l.minute) * 60 + Value(l.second) - LaxOffsetSeconds(l.zone)
  }

  // ---- one field ----

  lemma NumeralReads(n: Numeral, width: nat)
    requires NumeralOk(n, width)
    ensures ReadInt(NumeralText(n)) == Some(Value(n))
    ensures AllDigits(NumeralText(n)) <==> n.sign == ""
  {
    var s := NumeralText(n);
    if n.sign == "" {
      assert s == n.digits;
      assert IsDigit(s[0]);
    } else {
      assert s[1..] == n.digits && s[0] == n.sign[0];
      assert !IsDigit(s[0]);
    }
  }

  lemma ReadIsNumeral(s: string) returns (n: Numeral)
    requires ReadInt(s).Some?
    ensures NumeralOk(n, |s|) && NumeralText(n) == s && Value(n) == ReadInt(s).value
  {
    if s[0] == '-' || s[0] == '+' {
      n := Numeral([s[0]], s[1..]);
    } else {
      n := Numeral("", s);
    }
  }

  // ---- what has the form is read ----

  lemma ThreeSlices(a: Numeral, b: Numeral, c: Numeral, between: char, w: nat)
    requires NumeralOk(a, w) && NumeralOk(b, 2) && NumeralOk(c, 2)
    ensures var t := Three(a, b, c, [between]);
            && |t| == w + 6 && t[..w] == NumeralText(a) && t[w] == between && t[w + 1..w + 3] == NumeralText(b)
            && t[w + 3] == between && t[w + 4..] == NumeralText(c)
  {
  }

  /** Date and clock, each as it stands in the text. */
  lemma LaxHalves(l: Lax, tail: string)
    requires Widths(l)
    ensures var t := LaxHead(l) + tail;
            && |t| == 19 + |tail| && t[..10] == Three(l.year, l.month, l.day, "-") && t[10] == l.separator
            && t[11..19] == Three(l.hour, l.minute, l.second, ":") && t[19..] == tail
  {
    ThreeSlices(l.year, l.month, l.day, '-', 4);
    ThreeSlices(l.hour, l.minute, l.second, ':', 2);
    Halves(Three(l.year, l.month, l.day, "-"), l.separator, Three(l.hour, l.minute, l.second, ":"), tail);
  }

  lemma Halves(date: string, separator: char, clock: string, tail: string)
    requires |date| == 10 && |clock| == 8
    ensures var t := date + [separator] + clock + tail;
            |t| == 19 + |tail| && t[..10] == date && t[10] == separator && t[11..19] == clock && t[19..] == tail
  {
  }

  /** The numerals of the six fields, as they stand in a text. */
  predicate NumeralsOf(s: string, l: Lax)
    requires |s| >= 19
  {
    && NumeralText(l.year) == s[0..4] && NumeralText(l.month) == s[5..7] && NumeralText(l.day) == s[8..10]
    && NumeralText(l.hour) == s[11..13] && NumeralText(l.minute) == s[14..16] && NumeralText(l.second) == s[17..19]
  }

  lemma FieldsOfNumerals(s: string, l: Lax)
    requires |s| >= 19 && Widths(l) && NumeralsOf(s, l)
    ensures ReadFields(s) == Some(LaxFields(l))
  {
    NumeralReads(l.year, 4);
    NumeralReads(l.month, 2);
    NumeralReads(l.day, 2);
    NumeralReads(l.hour, 2);
    NumeralReads(l.minute, 2);
    NumeralReads(l.second, 2);
  }

  lemma LaxSlices(l: Lax, tail: string)
    requires Widths(l)
    ensures var t := LaxHead(l) + tail;
            |t| == 19 + |tail| && t[19..] == tail && NumeralsOf(t, l)
  {
    LaxHalves(l, tail);
    ThreeSlices(l.year, l.month, l.day, '-', 4);
    ThreeSlices(l.hour, l.minute, l.second, ':', 2);
    SlicesOfHalves(LaxHead(l) + tail);
  }

  lemma SlicesOfHalves(t: string)
    requires |t| >= 19
    ensures t[0..4] == t[..10][..4] && t[5..7] == t[..10][5..7] && t[8..10] == t[..10][8..]
    ensures t[11..13] == t[11..19][..2] && t[14..16] == t[11..19][3..5] && t[17..19] == t[11..19][6..]
  {
    Within(t, 0, 10, 0, 4);
    Within(t, 0, 10, 5, 7);
    Within(t, 0, 10, 8, 10);
    Within(t, 11, 19, 0, 2);
    Within(t, 11, 19, 3, 5);
    Within(t, 11, 19, 6, 8);
  }

  lemma Within(t: string, i: nat, j: nat, a: nat, b: nat)
    requires a <= b && i + b <= j <= |t|
    ensures t[i + a..i + b] == t[i..j][a..b]
  {
    var inner := t[i..j][a..b];
    assert |inner| == b - a;
    forall k | 0 <= k < b - a ensures t[i + a..i + b][k] == inner[k] {
      assert inner[k] == t[i..j][a + k] == t[i + a + k];
    }
  }

  lemma LaxSeparators(l: Lax, tail: string)
    requires Widths(l)
    ensures var t := LaxHead(l) + tail;
            |t| >= 19 && t[4] == '-' && t[7] == '-' && t[10] == l.separator && t[13] == ':' && t[16] == ':'
  {
    LaxHalves(l, tail);
    ThreeSlices(l.year, l.month, l.day, '-', 4);
    ThreeSlices(l.hour, l.minute, l.second, ':', 2);
    SeparatorsOfHalves(LaxHead(l) + tail);
  }

  lemma SeparatorsOfHalves(t: string)
    requires |t| >= 19
    ensures t[4] == t[..10][4] && t[7] == t[..10][7] && t[13] == t[11..19][2] && t[16] == t[11..19][5]
  {
  }

  lemma LaxFieldsRead(l: Lax, tail: string)
    requires Widths(l)
    ensures |LaxHead(l) + tail| >= 19 && ReadFields(LaxHead(l) + tail) == Some(LaxFields(l))
  {
    LaxSlices(l, tail);
    FieldsOfNumerals(LaxHead(l) + tail, l);
  }

  lemma LaxZoneStarts(z: LaxZone)
    requires LaxZoneOk(z)
    ensures LaxZoneText(z)[0] in ['Z', 'z', '+', '-']
  {
  }

  /** A fraction ends where the zone begins, even an empty one. */
  lemma LaxFractionEnds(l: Lax)
    requires LaxOk(l)
    ensures var tail := LaxTail(l);
            && (l.fraction.None? ==> tail == LaxZoneText(l.zone) && tail[0] != '.')
            && (l.fraction.Some? ==>
                  && tail[0] == '.' && DigitRun(tail[1..]) == |l.fraction.value|
                  && tail[1..][|l.fraction.value|..] == LaxZoneText(l.zone))
  {
    LaxZoneStarts(l.zone);
    var tail, zone := LaxTail(l), LaxZoneText(l.zone);
    if l.fraction.Some? {
      assert tail[1..] == l.fraction.value + zone;
      RunEnds(l.fraction.value, zone);
    } else {
      assert tail == zone;
    }
  }

  lemma OffsetSlices(z: LaxZone)
    requires LaxZoneOk(z) && z.LaxOffset?
    ensures var t := LaxZoneText(z);
            && |t| == 6 && t[0] == z.direction && t[1..3] == NumeralText(z.hours) && t[3] == z.between
            && t[4..6] == NumeralText(z.minutes)
  {
  }

  lemma LaxZoneReads(z: LaxZone)
    requires LaxZoneOk(z)
    ensures ReadZone(LaxZoneText(z)) == Some(LaxOffsetSeconds(z))
  {
    if z.LaxOffset? {
      OffsetSlices(z);
      NumeralReads(z.hours, 2);
      NumeralReads(z.minutes, 2);
      OffsetReads(LaxZoneText(z), NumeralText(z.hours), NumeralText(z.minutes));
    }
  }

  lemma OffsetReads(t: string, hours: string, minutes: string)
    requires |t| == 6 && t[0] in ['+', '-'] && t[1..3] == hours && t[4..6] == minutes
    requires ReadInt(hours).Some? && ReadInt(minutes).Some?
    ensures var magnitude := ReadInt(hours).value * 3600 + ReadInt(minutes).value * 60;
            ReadZone(t) == Some(if t[0] == '-' then -magnitude else magnitude)
  {
  }

  lemma LaxTailReads(l: Lax)
    requires LaxOk(l)
    ensures LaxTail(l) != "" && ReadZone(SkipFraction(LaxTail(l))) == Some(LaxOffsetSeconds(l.zone))
  {
    LaxFractionEnds(l);
    LaxZoneReads(l.zone);
  }

  lemma LaxInstantIs(l: Lax)
    requires LaxOk(l)
    ensures LaxInstant(l) == Instant(LaxFields(l), LaxOffsetSeconds(l.zone))
  {
  }

  lemma LaxIsRead(l: Lax)
    requires LaxOk(l)
    ensures Parse(LaxText(l)) == Some(LaxInstant(l))
  {
    LaxInstantIs(l);
    LaxFieldsParsed(l);
  }

  lemma LaxFieldsParsed(l: Lax)
    requires LaxOk(l)
    ensures Parse(LaxText(l)) == Some(Instant(LaxFields(l), LaxOffsetSeconds(l.zone)))
  {
    LaxHalves(l, LaxTail(l));
    LaxSeparators(l, LaxTail(l));
    LaxFieldsRead(l, LaxTail(l));
    LaxTailReads(l);
  }

  // ---- what is read has the form ----

  lemma ZoneIsLax(z: string) returns (zone: LaxZone)
    requires ReadZone(z).Some?
    ensures LaxZoneOk(zone) && LaxZoneText(zone) == z && LaxOffsetSeconds(zone) == ReadZone(z).value
  {
    if |z| == 1 {
      zone := LaxZulu(z[0]);
    } else {
      var hours := ReadIsNumeral(z[1..3]);
      var minutes := ReadIsNumeral(z[4..6]);
      zone := LaxOffset(z[0], hours, z[3], minutes);
      OffsetByParts(z, NumeralText(hours), NumeralText(minutes));
    }
  }

  lemma OffsetByParts(z: string, hours: string, minutes: string)
    requires |z| == 6 && hours == z[1..3] && minutes == z[4..6]
    ensures z == [z[0]] + hours + [z[3]] + minutes
  {
  }

  lemma TailIsLax(tail: string) returns (fraction: Option<string>, zone: LaxZone)
    requires ReadZone(SkipFraction(tail)).Some?
    ensures fraction.Some? ==> AllDigits(fraction.value)
    ensures LaxZoneOk(zone) && tail == LaxFraction(fraction) + LaxZoneText(zone)
    ensures LaxOffsetSeconds(zone) == ReadZone(SkipFraction(tail)).value
  {
    zone := ZoneIsLax(SkipFraction(tail));
    fraction := SplitTail(tail);
  }

  lemma SplitTail(tail: string) returns (fraction: Option<string>)
    ensures fraction.Some? ==> AllDigits(fraction.value)
    ensures tail == LaxFraction(fraction) + SkipFraction(tail)
  {
    fraction := None;
    if tail != [] && tail[0] == '.' {
      var run := DigitRun(tail[1..]);
      fraction := Some(tail[1..][..run]);
      assert tail == "." + tail[1..][..run] + tail[1..][run..];
    }
  }

  lemma HeadIsLax(s: string, fraction: Option<string>, zone: LaxZone) returns (l: Lax)
    requires |s| >= 19 && ReadFields(s).Some? && Separators(s)
    ensures Widths(l) && LaxFields(l) == ReadFields(s).value && s[..19] == LaxHead(l)
    ensures l.separator == s[10] && l.fraction == fraction && l.zone == zone
  {
    l := NumeralsFound(s, s[10], fraction, zone);
    FieldsOfNumerals(s, l);
    LaxHeadByParts(s, l);
  }

  lemma NumeralsFound(s: string, separator: char, fraction: Option<string>, zone: LaxZone) returns (l: Lax)
    requires |s| >= 19 && ReadFields(s).Some?
    ensures Widths(l) && NumeralsOf(s, l) && l.separator == separator && l.fraction == fraction && l.zone == zone
  {
    FieldsFound(s);
    var year, month, day := DateNumerals(s);
    var hour, minute, second := ClockNumerals(s);
    l := Lax(year, month, day, separator, hour, minute, second, fraction, zone);
  }

  lemma DateNumerals(s: string) returns (year: Numeral, month: Numeral, day: Numeral)
    requires |s| >= 19 && ReadInt(s[0..4]).Some? && ReadInt(s[5..7]).Some? && ReadInt(s[8..10]).Some?
    ensures NumeralOk(year, 4) && NumeralOk(month, 2) && NumeralOk(day, 2)
    ensures NumeralText(year) == s[0..4] && NumeralText(month) == s[5..7] && NumeralText(day) == s[8..10]
  {
    year, month, day := ThreeNumerals(s[0..4], s[5..7], s[8..10]);
  }

  lemma ClockNumerals(s: string) returns (hour: Numeral, minute: Numeral, second: Numeral)
    requires |s| >= 19 && ReadInt(s[11..13]).Some? && ReadInt(s[14..16]).Some? && ReadInt(s[17..19]).Some?
    ensures NumeralOk(hour, 2) && NumeralOk(minute, 2) && NumeralOk(second, 2)
    ensures NumeralText(hour) == s[11..13] && NumeralText(minute) == s[14..16] && NumeralText(second) == s[17..19]
  {
    hour, minute, second := ThreeNumerals(s[11..13], s[14..16], s[17..19]);
  }

  lemma FieldsFound(s: string)
    requires |s| >= 19 && ReadFields(s).Some?
    ensures ReadInt(s[0..4]).Some? && ReadInt(s[5..7]).Some? && ReadInt(s[8..10]).Some?
    ensures ReadInt(s[11..13]).Some? && ReadInt(s[14..16]).Some? && ReadInt(s[17..19]).Some?
  {
  }

  lemma ThreeNumerals(a: string, b: string, c: string) returns (k: Numeral, m: Numeral, n: Numeral)
    requires ReadInt(a).Some? && ReadInt(b).Some? && ReadInt(c).Some?
    ensures NumeralOk(k, |a|) && NumeralText(k) == a
    ensures NumeralOk(m, |b|) && NumeralText(m) == b
    ensures NumeralOk(n, |c|) && NumeralText(n) == c
  {
    k := ReadIsNumeral(a);
    m := ReadIsNumeral(b);
    n := ReadIsNumeral(c);
  }

  lemma LaxHeadByParts(s: string, l: Lax)
    requires |s| >= 19 && Separators(s) && l.separator == s[10] && NumeralsOf(s, l)
    ensures s[..19] == LaxHead(l)
  {
    ThreeByParts(s[..10], 4, "-");
    ThreeByParts(s[11..19], 2, ":");
    SlicesOfHalves(s);
    assert s[..19] == s[..10] + [s[10]] + s[11..19];
  }

  lemma ThreeByParts(t: string, w: nat, between: string)
    requires |t| == w + 6 && |between| == 1 && t[w] == t[w + 3] == between[0]
    ensures t == t[..w] + between + t[w + 1..w + 3] + between + t[w + 4..]
  {
  }

  lemma ParsedParts(s: string)
    requires Parse(s).Some?
    ensures |s| >= 20 && ReadFields(s).Some? && Separators(s) && InRange(ReadFields(s).value)
    ensures ReadZone(SkipFraction(s[19..])).Some?
  {
  }

  lemma ReadIsLax(s: string) returns (l: Lax)
    requires Parse(s).Some?
    ensures LaxOk(l) && s == LaxText(l)
  {
    ParsedParts(s);
    var fraction, zone := TailIsLax(s[19..]);
    l := HeadIsLax(s, fraction, zone);
    assert s[19..] == LaxTail(l);
    HeadAndTail(s);
  }

  lemma HeadAndTail(s: string)
    requires |s| >= 19
    ensures s == s[..19] + s[19..]
  {
  }

  /** The reader takes a text exactly when it has the form, and as the form's instant. */
  lemma ReadExactlyWhen(s: string, time: int)
    ensures Parse(s) == Some(time) <==> exists l :: LaxOk(l) && s == LaxText(l) && time == LaxInstant(l)
  {
    if Parse(s).Some? {
      var l := ReadIsLax(s);
      LaxIsRead(l);
    }
    forall l | LaxOk(l) && s == LaxText(l) ensures Parse(s) == Some(LaxInstant(l)) {
      LaxIsRead(l);
    }
  }

  // ---- which of them are timestamps of the grammar ----

  /** No sign in any field, a capital `T`, no dot without digits, and a capital `Z` or an offset `HH:MM`. */
  predicate Strict(l: Lax) {
    && l.year.sign == "" && l.month.sign == "" && l.day.sign == ""
    && l.hour.sign == "" && l.minute.sign == "" && l.second.sign == ""
    && l.separator == 'T' && l.fraction != Some("")
    && StrictZone(l.zone)
  }

  predicate StrictZone(z: LaxZone) {
    match z
    case LaxZulu(letter) => letter == 'Z'
    case LaxOffset(_, hours, between, minutes) => hours.sign == "" && between == ':' && minutes.sign == ""
  }

  lemma ZoneShapeExactly(z: LaxZone)
    requires LaxZoneOk(z)
    ensures ZoneShape(LaxZoneText(z)) <==> StrictZone(z)
  {
    if z.LaxOffset? {
      OffsetSlices(z);
      NumeralReads(z.hours, 2);
      NumeralReads(z.minutes, 2);
    }
  }

  lemma TailShapeExactly(l: Lax)
    requires LaxOk(l)
    ensures TailShape(LaxTail(l)) <==> l.fraction != Some("") && StrictZone(l.zone)
  {
    LaxFractionEnds(l);
    ZoneShapeExactly(l.zone);
  }

  lemma DigitsExactly(l: Lax, tail: string)
    requires Widths(l)
    ensures var t := LaxHead(l) + tail;
            && |t| >= 19 && (DigitsAt(t, 0, 4) <==> l.year.sign == "") && (DigitsAt(t, 5, 2) <==> l.month.sign == "")
            && (DigitsAt(t, 8, 2) <==> l.day.sign == "") && (DigitsAt(t, 11, 2) <==> l.hour.sign == "")
            && (DigitsAt(t, 14, 2) <==> l.minute.sign == "") && (DigitsAt(t, 17, 2) <==> l.second.sign == "")
  {
    LaxSlices(l, tail);
    NumeralReads(l.year, 4);
    NumeralReads(l.month, 2);
    NumeralReads(l.day, 2);
    NumeralReads(l.hour, 2);
    NumeralReads(l.minute, 2);
    NumeralReads(l.second, 2);
  }

  lemma PlainValue(n: Numeral)
    requires n.sign == "" && AllDigits(n.digits)
    ensures NumeralText(n) == n.digits && Value(n) == Number(n.digits)
  {
  }

  lemma PlainInRange(l: Lax, tail: string)
    requires LaxOk(l) && DateShape(LaxHead(l) + tail) && ClockShape(LaxHead(l) + tail)
    requires l.month.sign == l.day.sign == l.hour.sign == l.minute.sign == l.second.sign == ""
    ensures FieldsInRange(LaxHead(l) + tail)
  {
    LaxSlices(l, tail);
    PlainValue(l.month);
    PlainValue(l.day);
    PlainValue(l.hour);
    PlainValue(l.minute);
    PlainValue(l.second);
  }

  lemma HeadShapeExactly(l: Lax, tail: string)
    requires LaxOk(l)
    ensures |LaxHead(l) + tail| >= 19
    ensures HeadShape(LaxHead(l) + tail) <==>
              && l.year.sign == "" && l.month.sign == "" && l.day.sign == ""
              && l.hour.sign == "" && l.minute.sign == "" && l.second.sign == "" && l.separator == 'T'
  {
    LaxSeparators(l, tail);
    DigitsExactly(l, tail);
    if DateShape(LaxHead(l) + tail) && ClockShape(LaxHead(l) + tail) {
      PlainInRange(l, tail);
    }
  }

  /** A text the reader takes is a timestamp of the grammar, and so taken by the envelope, exactly when its form is
      strict. */
  lemma GrammarExactlyWhen(l: Lax)
    requires LaxOk(l)
    ensures IsTimestamp(LaxText(l)) <==> Strict(l)
  {
    ShapeIsTheGrammar(LaxText(l));
    LaxSlices(l, LaxTail(l));
    HeadShapeExactly(l, LaxTail(l));
    TailShapeExactly(l);
  }

  /** The envelope refuses a text the reader takes exactly when one of its forms is not strict: whatever else the
      reader takes is a sign in a field, a small letter, an empty fraction or another character inside an offset. That
      character is an ASCII one, being a single byte of UTF-8 between two others. */
  lemma ReadBeyondTheGrammar(s: string)
    ensures Parse(s).Some? && !IsTimestamp(s) <==> exists l :: LaxOk(l) && !Strict(l) && s == LaxText(l)
  {
    if Parse(s).Some? {
      var l := ReadIsLax(s);
      GrammarExactlyWhen(l);
    }
    forall l | LaxOk(l) && !Strict(l) && s == LaxText(l) ensures Parse(s).Some? && !IsTimestamp(s) {
      LaxIsRead(l);
      GrammarExactlyWhen(l);
    }
  }

  function Plain(digits: string): Numeral {
    Numeral("", digits)
  }

  function Minus(digits: string): Numeral {
    Numeral("-", digits)
  }

  /** The first of January 2026 less five hours, one minute and nine seconds, in signed fields. */
  function SignedFields(): Lax {
    Lax(Plain("2026"), Numeral("+", "1"), Numeral("+", "1"), 'T', Minus("5"), Minus("1"), Minus("9"), Some(""),
        LaxZulu('z'))
  }

  lemma OneDigit(c: char)
    requires IsDigit(c)
    ensures AllDigits([c]) && Number([c]) == DigitValue(c)
  {
    NumberAppend([], c);
    assert [] + [c] == [c];
  }

  lemma SignedFieldsAre(l: Lax)
    requires l == SignedFields()
    ensures LaxOk(l) && LaxFields(l) == Fields(2026, 1, 1, -5, -1, -9)
  {
    OneDigit('1');
    OneDigit('5');
    OneDigit('9');
    NumberOfDigits(2, 0, 2, 6, "2026");
  }

  lemma SignedFieldsRead(l: Lax)
    requires l == SignedFields()
    ensures LaxOk(l) && LaxInstant(l) == Instant(Fields(2026, 1, 1, -5, -1, -9), 0)
  {
    SignedFieldsAre(l);
    LaxInstantIs(l);
  }

  lemma SignedFieldsText(l: Lax)
    requires l == SignedFields()
    ensures LaxText(l) == "2026-+1-+1T-5:-1:-9.z"
  {
  }

  lemma SignsAreRead()
    ensures Parse("2026-+1-+1T-5:-1:-9.z") == Some(Instant(Fields(2026, 1, 1, -5, -1, -9), 0))
    ensures !IsTimestamp("2026-+1-+1T-5:-1:-9.z")
  {
    SignedForm(SignedFields(), "2026-+1-+1T-5:-1:-9.z");
  }

  lemma SignedForm(l: Lax, s: string)
    requires l == SignedFields() && s == "2026-+1-+1T-5:-1:-9.z"
    ensures Parse(s) == Some(Instant(Fields(2026, 1, 1, -5, -1, -9), 0)) && !IsTimestamp(s)
  {
    SignedFieldsRead(l);
    SignedFieldsText(l);
    LaxIsRead(l);
    GrammarExactlyWhen(l);
  }
}
