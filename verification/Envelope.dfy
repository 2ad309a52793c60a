/** The envelope's checks on what arrives, and its shape check of timestamps: a second, stricter reader of the grammar
    that never computes an instant. */
module EnvelopeCheck {
  import opened Wrappers
  import opened Decimals
  import opened Timestamps
  import opened Rfc3339

  const ENVELOPE_VERSION: nat := 1

  /** The timestamps of the grammar. */
  ghost predicate IsTimestamp(s: string) {
    exists stamp :: WellFormed(stamp) && s == Render(stamp)
  }

  // ---- the shape, character by character ----

  predicate DigitsAt(s: string, from: nat, length: nat)
    requires from + length <= |s|
  {
    AllDigits(s[from..from + length])
  }

  predicate DateShape(s: string)
    requires |s| >= 19
  {
    DigitsAt(s, 0, 4) && s[4] == '-' && DigitsAt(s, 5, 2) && s[7] == '-' && DigitsAt(s, 8, 2)
  }

  predicate ClockShape(s: string)
    requires |s| >= 19
  {
    DigitsAt(s, 11, 2) && s[13] == ':' && DigitsAt(s, 14, 2) && s[16] == ':' && DigitsAt(s, 17, 2)
  }

  predicate FieldsInRange(s: string)
    requires |s| >= 19 && DateShape(s) && ClockShape(s)
  {
    && 1 <= Number(s[5..7]) <= 12 && 1 <= Number(s[8..10]) <= 31
    && Number(s[11..13]) <= 23 && Number(s[14..16]) <= 59 && Number(s[17..19]) <= 60
  }

  predicate HeadShape(s: string)
    requires |s| >= 19
  {
    DateShape(s) && s[10] == 'T' && ClockShape(s) && FieldsInRange(s)
  }

  predicate ZoneShape(z: string) {
    || z == "Z"
    || (|z| == 6 && z[0] in ['+', '-'] && DigitsAt(z, 1, 2) && z[3] == ':' && DigitsAt(z, 4, 2))
  }

  predicate TailShape(tail: string) {
    if tail != [] && tail[0] == '.' then
      var run := DigitRun(tail[1..]);
      run > 0 && ZoneShape(tail[1..][run..])
    else ZoneShape(tail)
  }

  predicate Shape(s: string) {
    |s| >= 20 && HeadShape(s) && TailShape(s[19..])
  }

  // ---- the shape is the grammar ----

  lemma TwoDigits(s: string)
    requires |s| == 2 && AllDigits(s)
    ensures Number(s) < 100 && Two(Number(s)) == s
  {
    NumberOfTwo(s);
    Tens(DigitValue(s[0]), DigitValue(s[1]), Number(s));
  }

  lemma NumberOfTwo(s: string)
    requires |s| == 2 && AllDigits(s)
    ensures Number(s) == 10 * DigitValue(s[0]) + DigitValue(s[1])
  {
    NumberAppend([], s[0]);
    NumberAppend([s[0]], s[1]);
    assert [] + [s[0]] == [s[0]] && [s[0]] + [s[1]] == s;
  }

  lemma Tens(a: nat, b: nat, n: nat)
    requires a < 10 && b < 10 && n == 10 * a + b
    ensures n < 100 && n / 10 == a && n % 10 == b
  {
  }

  lemma FourDigits(s: string)
    requires |s| == 4 && AllDigits(s)
    ensures Number(s) < 10000 && Four(Number(s)) == s
  {
    TwoDigits(s[..2]);
    TwoDigits(s[2..]);
    NumberAppend(s[..2], s[2]);
    NumberAppend(s[..2] + [s[2]], s[3]);
    NumberAppend([], s[2]);
    NumberAppend([s[2]], s[3]);
    assert [] + [s[2]] == [s[2]] && [s[2]] + [s[3]] == s[2..];
    assert s[..2] + [s[2]] + [s[3]] == s;
    assert Number(s) == 100 * Number(s[..2]) + Number(s[2..]);
    NumberOfFour(Number(s));
    NumberInjective(s, Four(Number(s)));
  }

  function HeadStamp(s: string, fraction: string, zone: Zone): Stamp
    requires |s| >= 19 && HeadShape(s)
  {
    Stamp(Number(s[0..4]), Number(s[5..7]), Number(s[8..10]), Number(s[11..13]), Number(s[14..16]), Number(s[17..19]),
          fraction, zone)
  }

  lemma HeadIsRendered(s: string, fraction: string, zone: Zone)
    requires |s| >= 19 && HeadShape(s) && AllDigits(fraction) && ZoneOk(zone)
    ensures var stamp := HeadStamp(s, fraction, zone); WellFormed(stamp) && s[..19] == Head(stamp)
  {
    FourDigits(s[0..4]);
    TwoDigits(s[5..7]);
    TwoDigits(s[8..10]);
    TwoDigits(s[11..13]);
    TwoDigits(s[14..16]);
    TwoDigits(s[17..19]);
    HeadByParts(s[..19], s[0..4], s[5..7], s[8..10], s[11..13], s[14..16], s[17..19]);
  }

  lemma HeadByParts(s: string, year: string, month: string, day: string, hour: string, minute: string, second: string)
    requires |s| == 19
    requires year == s[0..4] && month == s[5..7] && day == s[8..10]
    requires hour == s[11..13] && minute == s[14..16] && second == s[17..19]
    requires s[4] == '-' && s[7] == '-' && s[10] == 'T' && s[13] == ':' && s[16] == ':'
    ensures s == year + "-" + month + "-" + day + "T" + hour + ":" + minute + ":" + second
  {
  }

  lemma ZoneIsRendered(z: string) returns (zone: Zone)
    requires ZoneShape(z)
    ensures ZoneOk(zone) && z == ZoneText(zone)
  {
    if z == "Z" {
      zone := Zulu;
    } else {
      TwoDigits(z[1..3]);
      TwoDigits(z[4..6]);
      zone := Offset(z[0] == '-', Number(z[1..3]), Number(z[4..6]));
      assert z == [z[0]] + z[1..3] + [z[3]] + z[4..6];
    }
  }

  lemma TailIsRendered(tail: string) returns (fraction: string, zone: Zone)
    requires TailShape(tail)
    ensures AllDigits(fraction) && ZoneOk(zone) && tail == FractionText(fraction) + ZoneText(zone)
  {
    if tail != [] && tail[0] == '.' {
      var run := DigitRun(tail[1..]);
      fraction := tail[1..][..run];
      zone := ZoneIsRendered(tail[1..][run..]);
      assert tail == "." + fraction + tail[1..][run..];
    } else {
      fraction := "";
      zone := ZoneIsRendered(tail);
    }
  }

  lemma HeadHasShape(stamp: Stamp, tail: string)
    requires WellFormed(stamp)
    ensures HeadShape(Head(stamp) + tail)
  {
    HeadSlices(stamp, tail);
    HeadSeparators(stamp, tail);
    ReadTwo(stamp.month);
    ReadTwo(stamp.day);
    ReadTwo(stamp.hour);
    ReadTwo(stamp.minute);
    ReadTwo(stamp.second);
  }

  lemma TailHasShape(fraction: string, zone: Zone)
    requires AllDigits(fraction) && ZoneOk(zone)
    ensures TailShape(FractionText(fraction) + ZoneText(zone))
  {
    var z := ZoneText(zone);
    ZoneHasShape(zone);
    ZoneStarts(zone);
    if fraction == "" {
      assert FractionText(fraction) + z == z;
    } else {
      FractionCut(fraction, z);
    }
  }

  lemma FractionCut(fraction: string, z: string)
    requires AllDigits(fraction) && z != "" && !IsDigit(z[0])
    ensures var tail := "." + fraction + z;
            tail[0] == '.' && DigitRun(tail[1..]) == |fraction| && tail[1..][|fraction|..] == z
  {
    assert ("." + fraction + z)[1..] == fraction + z;
    RunEnds(fraction, z);
  }

  lemma ZoneHasShape(zone: Zone)
    requires ZoneOk(zone)
    ensures ZoneShape(ZoneText(zone))
  {
    if zone.Offset? {
      var z := ZoneText(zone);
      assert z[1..1 + 2] == Two(zone.hours) && z[4..4 + 2] == Two(zone.minutes);
    }
  }

  /** The shape check accepts exactly the timestamps of the grammar. */
  lemma ShapeIsTheGrammar(s: string)
    ensures Shape(s) <==> IsTimestamp(s)
  {
    if Shape(s) {
      var fraction, zone := TailIsRendered(s[19..]);
      HeadIsRendered(s, fraction, zone);
      assert s == s[..19] + s[19..];
      assert s == Render(HeadStamp(s, fraction, zone));
    }
    if IsTimestamp(s) {
      var stamp :| WellFormed(stamp) && s == Render(stamp);
      var tail := FractionText(stamp.fraction) + ZoneText(stamp.zone);
      HeadHasShape(stamp, tail);
      HeadSlices(stamp, tail);
      TailHasShape(stamp.fraction, stamp.zone);
    }
  }

  /** What the check accepts is read, and as the instant it names. */
  lemma AcceptedIsRead(s: string) returns (stamp: Stamp)
    requires IsTimestamp(s)
    ensures WellFormed(stamp) && s == Render(stamp) && Parse(s) == Some(Named(stamp))
  {
    stamp :| WellFormed(stamp) && s == Render(stamp);
    ReadsTheGrammar(stamp);
  }

  // ---- the check itself ----

  /** Step over the digits from a position on. */
  method PastDigits(s: string, start: nat) returns (i: nat)
    requires start <= |s|
    ensures i == start + DigitRun(s[start..])
  {
    i := start;
    while i < |s| && IsDigit(s[i])
      invariant start <= i <= |s|
      invariant AllDigits(s[start..i])
    {
      assert s[start..i + 1] == s[start..i] + [s[i]];
      i := i + 1;
    }
    assert s[start..][..i - start] == s[start..i];
    RunIs(s[start..], i - start);
  }

  method IsRfc3339(s: string) returns (ok: bool)
    ensures ok <==> IsTimestamp(s)
  {
    ShapeIsTheGrammar(s);
    if |s| < 20 {
      return false;
    }
    if !DateShape(s) {
      return false;
    }
    if s[10] != 'T' {
      return false;
    }
    if !ClockShape(s) {
      return false;
    }
    if !FieldsInRange(s) {
      return false;
    }
    ok := IsTail(s, 19);
  }

  /** The fraction and the zone, from a position on. */
  method IsTail(s: string, from: nat) returns (ok: bool)
    requires from < |s|
    ensures ok <==> TailShape(s[from..])
  {
    var i := from;
    if s[i] == '.' {
      var start := i + 1;
      i := PastDigits(s, start);
      assert s[from..][1..] == s[start..];
      assert s[start..][i - start..] == s[i..];
      if i == start {
        return false;
      }
    }
    ok := ZoneAt(s, i);
  }

  lemma RunIs(s: string, n: nat)
    requires n <= |s| && AllDigits(s[..n]) && (n < |s| ==> !IsDigit(s[n]))
    ensures DigitRun(s) == n
  {
    RunEnds(s[..n], s[n..]);
    assert s == s[..n] + s[n..];
  }

  predicate ZoneAt(s: string, i: nat)
    requires i <= |s|
    ensures ZoneAt(s, i) <==> ZoneShape(s[i..])
  {
    if i == |s| then false
    else if s[i] == 'Z' then assert s[i..] == "Z" <==> i + 1 == |s|; i + 1 == |s|
    else if s[i] == '+' || s[i] == '-' then
      assert |s| == i + 6 ==> s[i..][1..3] == s[i + 1..i + 3] && s[i..][4..6] == s[i + 4..i + 6];
      |s| == i + 6 && DigitsAt(s, i + 1, 2) && s[i + 3] == ':' && DigitsAt(s, i + 4, 2)
    else false
  }

  datatype RejectReason =
    | UnsupportedVersion(found: nat)
    | EmptyField(name: string)
    | BadTimestamp(value: string)
    | BodyNotObject

  /** The parts of an envelope its checks look at. */
  datatype Envelope = Envelope(v: nat, id: string, messageType: string, sent: string, sender: string, bodyIsObject: bool)

  ghost predicate Sound(e: Envelope) {
    && e.v == 1 && e.id != "" && e.sender != "" && e.messageType != ""
    && IsTimestamp(e.sent) && e.bodyIsObject
  }

  /** Accepted exactly when every rule holds, and refused for the first rule broken. */
  method Validate(e: Envelope) returns (r: Result<(), RejectReason>)
    ensures r.Ok? <==> Sound(e)
    ensures r.Err? ==> match r.error
      case UnsupportedVersion(found) => found == e.v != ENVELOPE_VERSION
      case EmptyField(name) =>
        && e.v == ENVELOPE_VERSION
        && name == (if e.id == "" then "id" else if e.sender == "" then "sender" else "type")
        && (e.id == "" || e.sender == "" || e.messageType == "")
      case BadTimestamp(value) =>
        e.v == ENVELOPE_VERSION && e.id != "" && e.sender != "" && e.messageType != "" && value == e.sent
        && !IsTimestamp(e.sent)
      case BodyNotObject => Sound(e.(bodyIsObject := true))
  {
    if e.v != ENVELOPE_VERSION {
      return Err(UnsupportedVersion(e.v));
    }
    if e.id == "" {
      return Err(EmptyField("id"));
    }
    if e.sender == "" {
      return Err(EmptyField("sender"));
    }
    if e.messageType == "" {
      return Err(EmptyField("type"));
    }
    var ok := IsRfc3339(e.sent);
    if !ok {
      return Err(BadTimestamp(e.sent));
    }
    if !e.bodyIsObject {
      return Err(BodyNotObject);
    }
    return Ok(());
  }
}
