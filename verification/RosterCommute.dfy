/** Two removals give the same roster in either order. */
module RosterCommute {
  import opened Wrappers
  import opened RosterModel
  import Churn

  /** The removal comes from an active member and its signature verifies. */
  predicate Accepts(c: Platform, r: Roster, m: Remove, remover: DeviceId) {
    HasIdentity(c, r, remover) && c.removalVerifies(r.devices[remover].identityPk, m)
  }

  predicate Buries(c: Platform, r: Roster, m: Remove, remover: DeviceId) {
    Accepts(c, r, m, remover) && m.subject !in r.tombstones
  }

  // ---- one removal, part by part ----

  function ChurnAfter(c: Platform, r: Roster, log: Churn.Log, m: Remove, remover: DeviceId, now: int): Churn.Log {
    if !Accepts(c, r, m, remover) then log
    else
      var counted := ChurnOfRemoval(c, log, m, remover, now);
      if m.subject in r.tombstones then counted else Churn.Forgotten(counted, m.subject)
  }

  lemma RemoveParts(c: Platform, r: Roster, m: Remove, remover: DeviceId, now: int)
    requires m.subject != r.selfId
    ensures var q := ReceiveRemove(c, r, m, remover, now).0;
            && q.selfId == r.selfId && q.removedMe == r.removedMe
            && q.devices == (if Buries(c, r, m, remover) then Deactivated(r.devices, m.subject) else r.devices)
            && q.tombstones == (if Buries(c, r, m, remover)
                                then r.tombstones[m.subject := TombstoneOf(m, remover)] else r.tombstones)
            && q.held == (if Buries(c, r, m, remover) then r.held - {m.subject} else r.held)
            && q.epoch == (if Buries(c, r, m, remover) then Max(r.epoch, m.epoch) else r.epoch)
            && q.churn == ChurnAfter(c, r, r.churn, m, remover, now)
  {
  }

  /** Neither removal is about the other's signer or buries the other's subject, so neither changes what becomes of the
      other. */
  predicate Independent(r: Roster, m1: Remove, r1: DeviceId, m2: Remove, r2: DeviceId) {
    && (m1.subject != m2.subject || m1.subject in r.tombstones) && m1.subject != r.selfId && m2.subject != r.selfId
    && m1.subject != r2 && m2.subject != r1
  }

  lemma OtherUnmoved(
    c: Platform, r: Roster, m1: Remove, r1: DeviceId, m2: Remove, r2: DeviceId, now: int)
    requires Independent(r, m1, r1, m2, r2)
    ensures var q := ReceiveRemove(c, r, m1, r1, now).0;
            && (Accepts(c, q, m2, r2) <==> Accepts(c, r, m2, r2))
            && (m2.subject in q.tombstones <==> m2.subject in r.tombstones)
  {
    RemoveParts(c, r, m1, r1, now);
  }

  // ---- the churn log, signer by signer ----

  function Lookup(log: Churn.Log, k: string): Option<seq<int>> {
    if k in log then Some(log[k]) else None
  }

  /** What an accepted removal does to one signer's stamps. */
  function StampsAfter(
    c: Platform, r: Roster, stamps: Option<seq<int>>, m: Remove, remover: DeviceId, now: int, k: string)
    : Option<seq<int>>
  {
    if !Accepts(c, r, m, remover) then stamps
    else if k == m.subject then (if m.subject in r.tombstones then stamps else None)
    else if k == remover then
      var before := if stamps.Some? then stamps.value else [];
      Some(Churn.Since(before + [Churn.UnixSeconds(Churn.ClampToNow(TimestampOr(c, m.removedAt, now), now))],
                       Churn.UnixSeconds(now) - Churn.CHURN_WINDOW))
    else stamps
  }

  lemma RecordedLookup(log: Churn.Log, signer: string, signedAt: int, now: int, k: string)
    ensures Lookup(Churn.Recorded(log, signer, signedAt, now), k)
         == if k == signer
            then Some(Churn.Since(Churn.StampsOf(log, signer) + [Churn.UnixSeconds(Churn.ClampToNow(signedAt, now))],
                                  Churn.UnixSeconds(now) - Churn.CHURN_WINDOW))
            else Lookup(log, k)
  {
  }

  lemma ForgottenLookup(log: Churn.Log, signer: string, k: string)
    ensures Lookup(Churn.Forgotten(log, signer), k) == if k == signer then None else Lookup(log, k)
  {
  }

  lemma CountedLookup(c: Platform, log: Churn.Log, m: Remove, remover: DeviceId, now: int, k: string)
    ensures Lookup(ChurnOfRemoval(c, log, m, remover, now), k)
         == if k == remover && k != m.subject
            then Some(Churn.Since(Churn.StampsOf(log, remover)
                                    + [Churn.UnixSeconds(Churn.ClampToNow(TimestampOr(c, m.removedAt, now), now))],
                                  Churn.UnixSeconds(now) - Churn.CHURN_WINDOW))
            else Lookup(log, k)
  {
    if m.subject != remover {
      RecordedLookup(log, remover, TimestampOr(c, m.removedAt, now), now, k);
    }
  }

  lemma ChurnPointwise(c: Platform, r: Roster, log: Churn.Log, m: Remove, remover: DeviceId, now: int, k: string)
    ensures Lookup(ChurnAfter(c, r, log, m, remover, now), k)
         == StampsAfter(c, r, Lookup(log, k), m, remover, now, k)
  {
    if Accepts(c, r, m, remover) {
      CountedLookup(c, log, m, remover, now, k);
      ForgottenLookup(ChurnOfRemoval(c, log, m, remover, now), m.subject, k);
    }
  }

  /** Pruning commutes with appending, up to order. */
  lemma StampsCommute(s: seq<int>, a: int, b: int, cutoff: int)
    ensures Churn.SameStamps(Churn.Since(Churn.Since(s + [a], cutoff) + [b], cutoff),
                             Churn.Since(Churn.Since(s + [b], cutoff) + [a], cutoff))
  {
    PruneAppend(s, a, b, cutoff);
    PruneAppend(s, b, a, cutoff);
  }

  lemma PruneAppend(s: seq<int>, a: int, b: int, cutoff: int)
    ensures Churn.Since(Churn.Since(s + [a], cutoff) + [b], cutoff)
         == Churn.Since(s, cutoff) + (if a >= cutoff then [a] else []) + (if b >= cutoff then [b] else [])
  {
    Churn.SinceAppend(Churn.Since(s + [a], cutoff), b, cutoff);
    Churn.SinceTwice(s + [a], cutoff, cutoff);
    Churn.SinceAppend(s, a, cutoff);
  }

  predicate SameEntry(a: Option<seq<int>>, b: Option<seq<int>>) {
    (a.None? && b.None?) || (a.Some? && b.Some? && Churn.SameStamps(a.value, b.value))
  }

  lemma EntryCommutes(
    c: Platform, r: Roster, stamps: Option<seq<int>>, m1: Remove, r1: DeviceId, m2: Remove, r2: DeviceId, now: int,
    k: string)
    requires Independent(r, m1, r1, m2, r2)
    ensures SameEntry(StampsAfter(c, r, StampsAfter(c, r, stamps, m1, r1, now, k), m2, r2, now, k),
                      StampsAfter(c, r, StampsAfter(c, r, stamps, m2, r2, now, k), m1, r1, now, k))
  {
    if r1 == r2 == k && Accepts(c, r, m1, r1) && Accepts(c, r, m2, r2) {
      SignerCommutes(c, r, stamps, m1, m2, now, k);
    }
  }

  lemma SignerCommutes(
    c: Platform, r: Roster, stamps: Option<seq<int>>, m1: Remove, m2: Remove, now: int, k: string)
    requires m1.subject != k && m2.subject != k && Accepts(c, r, m1, k) && Accepts(c, r, m2, k)
    ensures SameEntry(StampsAfter(c, r, StampsAfter(c, r, stamps, m1, k, now, k), m2, k, now, k),
                      StampsAfter(c, r, StampsAfter(c, r, stamps, m2, k, now, k), m1, k, now, k))
  {
    var at1 := Churn.UnixSeconds(Churn.ClampToNow(TimestampOr(c, m1.removedAt, now), now));
    var at2 := Churn.UnixSeconds(Churn.ClampToNow(TimestampOr(c, m2.removedAt, now), now));
    StampsCommute(if stamps.Some? then stamps.value else [], at1, at2, Churn.UnixSeconds(now) - Churn.CHURN_WINDOW);
  }

  lemma ChurnAfterOther(
    c: Platform, r: Roster, m1: Remove, r1: DeviceId, m2: Remove, r2: DeviceId, now: int, log: Churn.Log)
    requires Independent(r, m1, r1, m2, r2)
    ensures ChurnAfter(c, ReceiveRemove(c, r, m1, r1, now).0, log, m2, r2, now) == ChurnAfter(c, r, log, m2, r2, now)
  {
    OtherUnmoved(c, r, m1, r1, m2, r2, now);
  }

  lemma ChurnCommutes(c: Platform, r: Roster, m1: Remove, r1: DeviceId, m2: Remove, r2: DeviceId, now: int)
    requires Independent(r, m1, r1, m2, r2)
    ensures Churn.SameLog(ChurnAfter(c, r, ChurnAfter(c, r, r.churn, m1, r1, now), m2, r2, now),
                          ChurnAfter(c, r, ChurnAfter(c, r, r.churn, m2, r2, now), m1, r1, now))
  {
    var one := ChurnAfter(c, r, r.churn, m1, r1, now);
    var two := ChurnAfter(c, r, r.churn, m2, r2, now);
    var x, y := ChurnAfter(c, r, one, m2, r2, now), ChurnAfter(c, r, two, m1, r1, now);
    forall k ensures SameEntry(Lookup(x, k), Lookup(y, k)) {
      ChurnPointwise(c, r, r.churn, m1, r1, now, k);
      ChurnPointwise(c, r, r.churn, m2, r2, now, k);
      ChurnPointwise(c, r, one, m2, r2, now, k);
      ChurnPointwise(c, r, two, m1, r1, now, k);
      EntryCommutes(c, r, Lookup(r.churn, k), m1, r1, m2, r2, now, k);
    }
    assert forall k :: k in x <==> k in y by {
      forall k ensures k in x <==> k in y {
        assert SameEntry(Lookup(x, k), Lookup(y, k));
      }
    }
    forall k | k in x ensures Churn.SameStamps(x[k], y[k]) {
      assert SameEntry(Lookup(x, k), Lookup(y, k));
    }
  }

  /** The same roster but for the order of the stamps in its churn log. */
  predicate SameRoster(a: Roster, b: Roster) {
    && a.selfId == b.selfId && a.devices == b.devices && a.tombstones == b.tombstones && a.epoch == b.epoch
    && a.held == b.held && a.removedMe == b.removedMe && Churn.SameLog(a.churn, b.churn)
  }

  lemma DeactivationsCommute(devices: map<DeviceId, DeviceRecord>, a: DeviceId, b: DeviceId)
    ensures Deactivated(Deactivated(devices, a), b) == Deactivated(Deactivated(devices, b), a)
  {
  }

  lemma TombstonesCommute(
    ts: map<DeviceId, Tombstone>, a: DeviceId, t: Tombstone, b: DeviceId, u: Tombstone)
    requires a != b
    ensures ts[a := t][b := u] == ts[b := u][a := t]
  {
  }

  /** Removal commutation. Two removals received at the same time leave the same records, tombstones, epoch,
      quarantine and churn counts in either order, provided they are about different devices or one buried already,
      neither of them this one, and neither is about the other's signer. `RosterOrder` says exactly when they do. */
  lemma RemovalsCommute(c: Platform, r: Roster, m1: Remove, r1: DeviceId, m2: Remove, r2: DeviceId, now: int)
    requires Independent(r, m1, r1, m2, r2)
    ensures SameRoster(ReceiveRemove(c, ReceiveRemove(c, r, m1, r1, now).0, m2, r2, now).0,
                       ReceiveRemove(c, ReceiveRemove(c, r, m2, r2, now).0, m1, r1, now).0)
  {
    var one, two := ReceiveRemove(c, r, m1, r1, now).0, ReceiveRemove(c, r, m2, r2, now).0;
    RemoveParts(c, r, m1, r1, now);
    RemoveParts(c, r, m2, r2, now);
    OtherUnmoved(c, r, m1, r1, m2, r2, now);
    OtherUnmoved(c, r, m2, r2, m1, r1, now);
    RemoveParts(c, one, m2, r2, now);
    RemoveParts(c, two, m1, r1, now);
    DeactivationsCommute(r.devices, m1.subject, m2.subject);
    if m1.subject != m2.subject {
      TombstonesCommute(r.tombstones, m1.subject, TombstoneOf(m1, r1), m2.subject, TombstoneOf(m2, r2));
    }
    ChurnCommutes(c, r, m1, r1, m2, r2, now);
    ChurnAfterOther(c, r, m1, r1, m2, r2, now, one.churn);
    ChurnAfterOther(c, r, m2, r2, m1, r1, now, two.churn);
  }

  /** About one and the same device the order matters: the removal that comes second is set aside before its
      epoch is looked at, so the two orders agree on the epoch exactly when that changes nothing. */
  lemma SameSubjectEpoch(c: Platform, r: Roster, m1: Remove, r1: DeviceId, m2: Remove, r2: DeviceId, now: int)
    requires m1.subject == m2.subject && m1.subject != r.selfId && m1.subject !in r.tombstones
    requires Accepts(c, r, m1, r1) && Accepts(c, r, m2, r2)
    ensures var x := ReceiveRemove(c, ReceiveRemove(c, r, m1, r1, now).0, m2, r2, now).0;
            var y := ReceiveRemove(c, ReceiveRemove(c, r, m2, r2, now).0, m1, r1, now).0;
            && x.tombstones[m1.subject] == TombstoneOf(m1, r1) && y.tombstones[m1.subject] == TombstoneOf(m2, r2)
            && (x.epoch == y.epoch <==> m1.epoch == m2.epoch || Max(m1.epoch, m2.epoch) <= r.epoch)
  {
    RemoveParts(c, r, m1, r1, now);
    RemoveParts(c, r, m2, r2, now);
    RemoveParts(c, ReceiveRemove(c, r, m1, r1, now).0, m2, r2, now);
    RemoveParts(c, ReceiveRemove(c, r, m2, r2, now).0, m1, r1, now);
  }
}
