/** Vouching for a device: what the voucher checks before signing, against what a receiver checks. */
module RosterVouching {
  import opened Wrappers
  import opened RosterModel

  /** The voucher's side. `sign` is this device's identity key at work on a subject and an epoch. */
  function VouchFor(c: Platform, r: Roster, subject: Subject, sign: (Subject, nat) -> string)
    : Result<Introduce, VouchRefusal>
  {
    if subject.deviceId in r.tombstones then Err(SubjectTombstoned(subject.deviceId))
    else if !c.usable(subject.identityPk) then Err(MalformedIdentityKey)
    else if !IsActive(r, subject.deviceId) && ActiveCount(r) >= MAX_ACTIVE_DEVICES then
      Err(SizeCapReached(ActiveCount(r)))
    else Ok(Introduce(subject, r.epoch, sign(subject, r.epoch)))
  }

  /** The key on record for this device verifies what it signs. */
  ghost predicate SignsForItself(c: Platform, r: Roster, sign: (Subject, nat) -> string) {
    && r.selfId in r.devices && c.usable(r.devices[r.selfId].identityPk)
    && forall s, e :: c.vouchVerifies(r.devices[r.selfId].identityPk, Introduce(s, e, sign(s, e)))
  }

  /** A vouch this device hands out passes every rule a receiver with the same roster checks if and only if this device
      is active itself, vouches for another, and names no key but the one on record: the voucher's side checks none of
      the three. */
  lemma VouchAcceptedExactlyWhen(c: Platform, r: Roster, subject: Subject, sign: (Subject, nat) -> string)
    requires SignsForItself(c, r, sign) && VouchFor(c, r, subject, sign).Ok?
    ensures VouchRule(c, r, VouchFor(c, r, subject, sign).value, r.selfId).None? <==>
            && IsActive(r, r.selfId) && subject.deviceId != r.selfId
            && (subject.deviceId in r.devices ==> r.devices[subject.deviceId].identityPk == subject.identityPk)
  {
    var m := VouchFor(c, r, subject, sign).value;
    assert m == Introduce(subject, r.epoch, sign(subject, r.epoch));
  }

  /** A vouch is made exactly for a device that is not buried, with a usable key, and for which there is room; it names the
      subject as given and this roster's epoch, signed together. */
  lemma VouchedExactlyWhen(c: Platform, r: Roster, subject: Subject, sign: (Subject, nat) -> string)
    ensures var made, d := VouchFor(c, r, subject, sign), subject.deviceId;
            && (made.Ok? <==>
                  && d !in r.tombstones && c.usable(subject.identityPk)
                  && ((d in r.devices && r.devices[d].state == Active) || |ActiveSet(r)| < 20))
            && (made.Ok? ==>
                  && made.value.subject == subject && made.value.epoch == r.epoch
                  && made.value.vouch == sign(subject, r.epoch))
  {
  }
}
