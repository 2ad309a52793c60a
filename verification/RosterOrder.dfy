/** Exactly when two removals give the same roster in either order. */
module RosterOrder {
  import opened Wrappers
  import opened RosterModel
  import opened RosterInvariants
  import opened RosterCommute
  import Churn

  /** One removal, then the other. */
  function Both(c: Platform, r: Roster, m1: Remove, r1: DeviceId, m2: Remove, r2: DeviceId, now: int): Roster {
    ReceiveRemove(c, ReceiveRemove(c, r, m1, r1, now).0, m2, r2, now).0
  }

  /** Two removals from members whose signatures verify, neither about this device, that would bury: one device under
      two tombstones, or one of them the signer of the other. */
  predicate Clash(c: Platform, r: Roster, m1: Remove, r1: DeviceId, m2: Remove, r2: DeviceId) {
    && m1.subject != r.selfId && m2.subject != r.selfId && Accepts(c, r, m1, r1) && Accepts(c, r, m2, r2)
    && if m1.subject == m2.subject then m1.subject !in r.tombstones && TombstoneOf(m1, r1) != TombstoneOf(m2, r2)
       else (m1.subject == r2 && m2.subject !in r.tombstones) || (m2.subject == r1 && m1.subject !in r.tombstones)
  }

  lemma SameSelf(r: Roster)
    ensures SameRoster(r, r)
  {
  }

  // ---- one of them is about this device ----

  /** Word of this device's own removal touches no record, no tombstone and no count. */
  lemma SelfParts(c: Platform, r: Roster, m: Remove, remover: DeviceId, now: int)
    requires m.subject == r.selfId
    ensures var q := ReceiveRemove(c, r, m, remover, now).0;
            q == r.(removedMe := if Known(c, r, m, remover) then r.removedMe + {remover} else r.removedMe,
                    epoch := if Known(c, r, m, remover) then Max(r.epoch, m.epoch) else r.epoch)
  {
  }

  /** It is believed from any signer with a record, active or not. */
  predicate Known(c: Platform, r: Roster, m: Remove, remover: DeviceId) {
    && remover in r.devices && c.usable(r.devices[remover].identityPk)
    && c.removalVerifies(r.devices[remover].identityPk, m)
  }

  lemma SelfThenOther(c: Platform, r: Roster, m1: Remove, r1: DeviceId, m2: Remove, r2: DeviceId, now: int)
    requires m1.subject == r.selfId && m2.subject != r.selfId
    ensures SameRoster(Both(c, r, m1, r1, m2, r2, now), Both(c, r, m2, r2, m1, r1, now))
  {
    var one, two := ReceiveRemove(c, r, m1, r1, now).0, ReceiveRemove(c, r, m2, r2, now).0;
    SelfParts(c, r, m1, r1, now);
    RemoveParts(c, one, m2, r2, now);
    RemoveParts(c, r, m2, r2, now);
    SelfParts(c, two, m1, r1, now);
    assert Accepts(c, one, m2, r2) == Accepts(c, r, m2, r2);
    assert Known(c, two, m1, r1) == Known(c, r, m1, r1);
  }

  lemma SelfTwice(c: Platform, r: Roster, m1: Remove, r1: DeviceId, m2: Remove, r2: DeviceId, now: int)
    requires m1.subject == m2.subject == r.selfId
    ensures Both(c, r, m1, r1, m2, r2, now) == Both(c, r, m2, r2, m1, r1, now)
  {
    var one, two := ReceiveRemove(c, r, m1, r1, now).0, ReceiveRemove(c, r, m2, r2, now).0;
    SelfParts(c, r, m1, r1, now);
    SelfParts(c, r, m2, r2, now);
    SelfParts(c, one, m2, r2, now);
    SelfParts(c, two, m1, r1, now);
    assert r.removedMe + {r1} + {r2} == r.removedMe + {r2} + {r1};
  }

  // ---- one of them is refused ----

  lemma RefusedIsNothing(c: Platform, r: Roster, m: Remove, remover: DeviceId, now: int)
    requires m.subject != r.selfId && !Accepts(c, r, m, remover)
    ensures ReceiveRemove(c, r, m, remover, now).0 == r
  {
  }

  /** A removal lets no other in that was refused before. */
  lemma StillRefused(c: Platform, r: Roster, m1: Remove, r1: DeviceId, m2: Remove, r2: DeviceId, now: int)
    requires m1.subject != r.selfId && !Accepts(c, r, m2, r2)
    ensures !Accepts(c, ReceiveRemove(c, r, m1, r1, now).0, m2, r2)
  {
    RemoveParts(c, r, m1, r1, now);
  }

  lemma RefusedCommutes(c: Platform, r: Roster, m1: Remove, r1: DeviceId, m2: Remove, r2: DeviceId, now: int)
    requires m1.subject != r.selfId && m2.subject != r.selfId && !Accepts(c, r, m2, r2)
    ensures Both(c, r, m1, r1, m2, r2, now) == Both(c, r, m2, r2, m1, r1, now)
  {
    var one := ReceiveRemove(c, r, m1, r1, now).0;
    RemoveParts(c, r, m1, r1, now);
    StillRefused(c, r, m1, r1, m2, r2, now);
    RefusedIsNothing(c, one, m2, r2, now);
    RefusedIsNothing(c, r, m2, r2, now);
  }

  // ---- one buries the signer of the other ----

  /** The second is refused if it comes second. */
  lemma SignerBuried(c: Platform, r: Roster, m1: Remove, r1: DeviceId, m2: Remove, r2: DeviceId, now: int)
    requires Inv(r) && m1.subject != r.selfId && m2.subject != r.selfId && m1.subject != m2.subject
    requires Accepts(c, r, m1, r1) && m1.subject == r2 && IsActive(r, r2)
    ensures var one := ReceiveRemove(c, r, m1, r1, now).0;
            Both(c, r, m1, r1, m2, r2, now) == one && one.tombstones == r.tombstones[r2 := TombstoneOf(m1, r1)]
  {
    var one := ReceiveRemove(c, r, m1, r1, now).0;
    RemoveParts(c, r, m1, r1, now);
    assert !IsActive(one, r2);
    RefusedIsNothing(c, one, m2, r2, now);
  }

  lemma BothBuried(c: Platform, r: Roster, m1: Remove, r1: DeviceId, m2: Remove, r2: DeviceId, now: int)
    requires m1.subject != r.selfId && m2.subject != r.selfId && Buries(c, r, m2, r2)
    ensures m2.subject in Both(c, r, m2, r2, m1, r1, now).tombstones
  {
    RemoveParts(c, r, m2, r2, now);
    RemoveParts(c, ReceiveRemove(c, r, m2, r2, now).0, m1, r1, now);
  }

  /** What the other only counts is forgotten with its signer. */
  lemma CountForgotten(c: Platform, log: Churn.Log, m1: Remove, r1: DeviceId, m2: Remove, r2: DeviceId, now: int)
    requires m1.subject == r2
    ensures Churn.Forgotten(ChurnOfRemoval(c, ChurnOfRemoval(c, log, m2, r2, now), m1, r1, now), r2)
         == Churn.Forgotten(ChurnOfRemoval(c, log, m1, r1, now), r2)
  {
    var counted := ChurnOfRemoval(c, log, m2, r2, now);
    if m2.subject != r2 {
      ForgetRecorded(log, r2, TimestampOr(c, m2.removedAt, now), now);
    }
    if m1.subject != r1 {
      ForgetBesides(counted, log, r2, r1, TimestampOr(c, m1.removedAt, now), now);
    }
  }

  lemma ForgetRecorded(log: Churn.Log, d: DeviceId, signedAt: int, now: int)
    ensures Churn.Forgotten(Churn.Recorded(log, d, signedAt, now), d) == Churn.Forgotten(log, d)
  {
  }

  lemma ForgetBesides(a: Churn.Log, b: Churn.Log, d: DeviceId, signer: DeviceId, signedAt: int, now: int)
    requires Churn.Forgotten(a, d) == Churn.Forgotten(b, d) && signer != d
    ensures Churn.Forgotten(Churn.Recorded(a, signer, signedAt, now), d)
         == Churn.Forgotten(Churn.Recorded(b, signer, signedAt, now), d)
  {
    RecordedBesides(a, d, signer, signedAt, now);
    RecordedBesides(b, d, signer, signedAt, now);
  }

  lemma StampsBesides(log: Churn.Log, d: DeviceId, signer: DeviceId)
    requires signer != d
    ensures Churn.StampsOf(Churn.Forgotten(log, d), signer) == Churn.StampsOf(log, signer)
  {
  }

  lemma RecordedBesides(log: Churn.Log, d: DeviceId, signer: DeviceId, signedAt: int, now: int)
    requires signer != d
    ensures Churn.Forgotten(Churn.Recorded(log, signer, signedAt, now), d)
         == Churn.Recorded(Churn.Forgotten(log, d), signer, signedAt, now)
  {
    StampsBesides(log, d, signer);
  }

  lemma SameLogs(a: Churn.Log)
    ensures Churn.SameLog(a, a)
  {
  }

  lemma CountedBefore(c: Platform, r: Roster, m1: Remove, r1: DeviceId, m2: Remove, r2: DeviceId, now: int)
    requires Inv(r) && m1.subject != r.selfId && m2.subject != r.selfId
    requires Accepts(c, r, m1, r1) && Accepts(c, r, m2, r2) && m1.subject == r2 && m2.subject in r.tombstones
    ensures SameRoster(Both(c, r, m1, r1, m2, r2, now), Both(c, r, m2, r2, m1, r1, now))
  {
    var one, two := ReceiveRemove(c, r, m1, r1, now).0, ReceiveRemove(c, r, m2, r2, now).0;
    SignerBuried(c, r, m1, r1, m2, r2, now);
    RemoveParts(c, r, m1, r1, now);
    RemoveParts(c, r, m2, r2, now);
    RemoveParts(c, two, m1, r1, now);
    CountForgotten(c, r.churn, m1, r1, m2, r2, now);
    SameLogs(one.churn);
  }

  lemma SignerExactlyWhen(c: Platform, r: Roster, m1: Remove, r1: DeviceId, m2: Remove, r2: DeviceId, now: int)
    requires Inv(r) && m1.subject != r.selfId && m2.subject != r.selfId && m1.subject != m2.subject
    requires Accepts(c, r, m1, r1) && Accepts(c, r, m2, r2) && m1.subject == r2
    ensures SameRoster(Both(c, r, m1, r1, m2, r2, now), Both(c, r, m2, r2, m1, r1, now)) <==> m2.subject in r.tombstones
  {
    if m2.subject in r.tombstones {
      CountedBefore(c, r, m1, r1, m2, r2, now);
    } else {
      SignerBuried(c, r, m1, r1, m2, r2, now);
      BothBuried(c, r, m1, r1, m2, r2, now);
    }
  }

  // ---- both bury one device ----

  lemma SameTombstone(c: Platform, r: Roster, m1: Remove, r1: DeviceId, m2: Remove, r2: DeviceId, now: int)
    requires m1.subject == m2.subject != r.selfId && TombstoneOf(m1, r1) == TombstoneOf(m2, r2)
    requires Accepts(c, r, m1, r1) <==> Accepts(c, r, m2, r2)
    ensures ReceiveRemove(c, r, m1, r1, now).0 == ReceiveRemove(c, r, m2, r2, now).0
  {
  }

  lemma OneDevice(c: Platform, r: Roster, m1: Remove, r1: DeviceId, m2: Remove, r2: DeviceId, now: int)
    requires m1.subject == m2.subject != r.selfId && m1.subject !in r.tombstones
    requires Accepts(c, r, m1, r1) && Accepts(c, r, m2, r2)
    ensures SameRoster(Both(c, r, m1, r1, m2, r2, now), Both(c, r, m2, r2, m1, r1, now))
       <==> TombstoneOf(m1, r1) == TombstoneOf(m2, r2)
  {
    SameSubjectEpoch(c, r, m1, r1, m2, r2, now);
    if TombstoneOf(m1, r1) == TombstoneOf(m2, r2) {
      var one := ReceiveRemove(c, r, m1, r1, now).0;
      SameTombstone(c, r, m1, r1, m2, r2, now);
      RemoveParts(c, r, m1, r1, now);
      SameTombstone(c, one, m1, r1, m2, r2, now);
      SameSelf(ReceiveRemove(c, one, m1, r1, now).0);
    }
  }

  // ---- all together ----

  lemma SameSymmetric(a: Roster, b: Roster)
    ensures SameRoster(a, b) == SameRoster(b, a)
  {
  }

  lemma AcceptedOrder(c: Platform, r: Roster, m1: Remove, r1: DeviceId, m2: Remove, r2: DeviceId, now: int)
    requires Inv(r) && m1.subject != r.selfId && m2.subject != r.selfId
    requires Accepts(c, r, m1, r1) && Accepts(c, r, m2, r2)
    ensures SameRoster(Both(c, r, m1, r1, m2, r2, now), Both(c, r, m2, r2, m1, r1, now))
       <==> !Clash(c, r, m1, r1, m2, r2)
  {
    if m1.subject == m2.subject && m1.subject !in r.tombstones {
      OneDevice(c, r, m1, r1, m2, r2, now);
    } else if m1.subject != m2.subject && m1.subject == r2 {
      SignerExactlyWhen(c, r, m1, r1, m2, r2, now);
    } else if m1.subject != m2.subject && m2.subject == r1 {
      SignerExactlyWhen(c, r, m2, r2, m1, r1, now);
      SameSymmetric(Both(c, r, m1, r1, m2, r2, now), Both(c, r, m2, r2, m1, r1, now));
    } else {
      RemovalsCommute(c, r, m1, r1, m2, r2, now);
    }
  }

  /** Two removals received at one time, whatever they are and whoever signed them, leave the same roster in either order,
      the order of churn stamps aside, exactly when they do not clash. */
  lemma OrderShowsExactlyWhen(c: Platform, r: Roster, m1: Remove, r1: DeviceId, m2: Remove, r2: DeviceId, now: int)
    requires Inv(r)
    ensures SameRoster(Both(c, r, m1, r1, m2, r2, now), Both(c, r, m2, r2, m1, r1, now))
       <==> !Clash(c, r, m1, r1, m2, r2)
  {
    var x, y := Both(c, r, m1, r1, m2, r2, now), Both(c, r, m2, r2, m1, r1, now);
    if m1.subject == r.selfId && m2.subject == r.selfId {
      SelfTwice(c, r, m1, r1, m2, r2, now);
      SameSelf(x);
    } else if m1.subject == r.selfId {
      SelfThenOther(c, r, m1, r1, m2, r2, now);
    } else if m2.subject == r.selfId {
      SelfThenOther(c, r, m2, r2, m1, r1, now);
      SameSymmetric(x, y);
    } else if !Accepts(c, r, m2, r2) {
      RefusedCommutes(c, r, m1, r1, m2, r2, now);
      SameSelf(x);
    } else if !Accepts(c, r, m1, r1) {
      RefusedCommutes(c, r, m2, r2, m1, r1, now);
      SameSelf(x);
    } else {
      AcceptedOrder(c, r, m1, r1, m2, r2, now);
    }
  }
}
