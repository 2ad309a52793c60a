/** The roster as the source keeps it: maps and a churn log, changed step by step in place. */
module RosterObject {
  import opened Wrappers
  import opened StringOrder
  import opened RosterModel
  import Churn

  class DeviceRoster {
    const selfId: DeviceId
    var devices: map<DeviceId, DeviceRecord>
    var tombstones: map<DeviceId, Tombstone>
    var epoch: nat
    const churn: Churn.ChurnLog
    var held: map<DeviceId, Held>
    var removedMe: set<DeviceId>

    function Value(): Roster
      reads this, churn
    {
      Roster(selfId, devices, tombstones, epoch, churn.events, held, removedMe)
    }

    /** A family of one, whose record names itself as introducer. */
    constructor (me: Subject)
      ensures Value() == Found(me) && fresh(churn)
    {
      selfId := me.deviceId;
      devices := map[me.deviceId := FromVouch(me, me.deviceId)];
      tombstones, epoch, held, removedMe := map[], 0, map[], {};
      churn := new Churn.ChurnLog();
    }

    // ---- queries ----

    method CountActive() returns (n: nat)
      ensures n == ActiveCount(Value())
    {
      n := 0;
      var ids := SortedKeys(devices.Keys);
      SortedDistinct(ids);
      ghost var seen: set<DeviceId> := {};
      for i := 0 to |ids|
        invariant n == |seen|
        invariant forall d :: d in seen <==> IsActive(Value(), d) && d in ids[..i]
      {
        assert forall d :: d in ids[..i + 1] <==> d in ids[..i] || d == ids[i];
        assert ids[i] !in ids[..i];
        if devices[ids[i]].state == Active {
          seen := seen + {ids[i]};
          n := n + 1;
        }
      }
      assert ids[..|ids|] == ids;
      assert seen == ActiveSet(Value());
    }

    method SplitEntries(peer: DeviceId) returns (ledger: seq<LedgerEntry>)
      ensures ledger == SplitLedger(Value(), peer)
    {
      ledger := if peer in removedMe && peer in tombstones then [LedgerEntry(peer, FamilySplit(peer))] else [];
    }

    // ---- the two ways a roster changes ----

    /** A burial, as `Buried` gives it. */
    method ApplyTombstone(t: Tombstone) returns (ledger: seq<LedgerEntry>)
      modifies this, churn
      ensures Value() == Buried(old(Value()), t) && ledger == BuriedLedger(old(Value()), t)
    {
      tombstones := tombstones[t.subject := t];
      if t.subject in devices {
        devices := devices[t.subject := devices[t.subject].(state := Removed)];
      }
      churn.Forget(t.subject);
      held := held - {t.subject};
      if t.epoch > epoch {
        epoch := t.epoch;
      }
      ledger := [LedgerEntry(t.subject, DeviceRemoved(t.removedBy, t.reason)),
                 LedgerEntry(t.subject, EpochBumped(epoch))];
      var split := SplitEntries(t.subject);
      ledger := ledger + split;
    }

    method AdmitSubject(subject: Subject, introducedBy: DeviceId) returns (ledger: seq<LedgerEntry>)
      modifies this
      ensures Value() == Admit(old(Value()), subject, introducedBy)
      ensures ledger == JoinedLedger(subject, introducedBy)
    {
      devices := devices[subject.deviceId := FromVouch(subject, introducedBy)];
      ledger := [LedgerEntry(subject.deviceId, DeviceJoined(introducedBy))];
    }

    // ---- receiving a vouch ----

    /** What is wrong with a vouch, if anything; nothing is changed. */
    method CheckVouch(c: Platform, m: Introduce, introducer: DeviceId) returns (refusal: Option<VouchRefusal>)
      ensures refusal == VouchRule(c, Value(), m, introducer)
    {
      var s := m.subject.deviceId;
      if !IsActive(Value(), introducer) { return Some(IntroducerNotActive(introducer)); }
      if s in tombstones { return Some(SubjectTombstoned(s)); }
      if s == introducer { return Some(SelfVouch(s)); }
      if s in devices && devices[s].identityPk != m.subject.identityPk { return Some(IdentityChanged(s)); }
      if !IsActive(Value(), s) {
        var active := CountActive();
        if active >= MAX_ACTIVE_DEVICES { return Some(SizeCapReached(active)); }
      }
      var key := devices[introducer].identityPk;
      if !c.usable(key) { return Some(MalformedIdentityKey); }
      if !c.vouchVerifies(key, m) { return Some(BadSignature); }
      if !c.usable(m.subject.identityPk) { return Some(MalformedIdentityKey); }
      refusal := None;
    }

    method ReceiveVouch(c: Platform, m: Introduce, introducer: DeviceId, now: int) returns (a: Applied<Admission>)
      modifies this, churn
      ensures (Value(), a) == ReceiveIntroduce(c, old(Value()), m, introducer, now)
    {
      var s := m.subject.deviceId;
      var refusal := CheckVouch(c, m, introducer);
      if refusal.Some? {
        return Applied(RefusedVouch(refusal.value), [LedgerEntry(s, VouchRejected)]);
      }
      if IsActive(Value(), s) {
        return Applied(AlreadyKnown, []);
      }
      var n := churn.Count(introducer, now);
      if n >= Churn.MAX_MEMBERSHIP_EVENTS_PER_DEVICE_PER_DAY {
        held := held[s := Held(m, introducer, n)];
        return Applied(HeldForUser(n), [LedgerEntry(s, AdmissionHeld(n))]);
      }
      churn.Record(introducer, TimestampOr(c, m.subject.joinedAt, now), now);
      var ledger := AdmitSubject(m.subject, introducer);
      a := Applied(Admitted, ledger);
    }

    // ---- the quarantine ----

    method Approve(subject: DeviceId) returns (a: Applied<Option<Admission>>)
      modifies this
      ensures (Value(), a) == ApproveHeld(old(Value()), subject)
    {
      if subject !in held {
        return Applied(None, []);
      }
      var h := held[subject];
      held := held - {subject};
      if !IsActive(Value(), h.introducer) {
        return Applied(Some(RefusedVouch(IntroducerNotActive(h.introducer))),
                       [LedgerEntry(subject, AdmissionResolved(false)), LedgerEntry(subject, VouchRejected)]);
      }
      if subject in tombstones {
        return Applied(Some(RefusedVouch(SubjectTombstoned(subject))),
                       [LedgerEntry(subject, AdmissionResolved(false)), LedgerEntry(subject, VouchRejected)]);
      }
      var joined := AdmitSubject(h.message.subject, h.introducer);
      a := Applied(Some(Admitted), [LedgerEntry(subject, AdmissionResolved(true))] + joined);
    }

    method Deny(subject: DeviceId) returns (a: Applied<bool>)
      modifies this
      ensures (Value(), a) == DenyHeld(old(Value()), subject)
    {
      if subject !in held {
        return Applied(false, []);
      }
      held := held - {subject};
      a := Applied(true, [LedgerEntry(subject, AdmissionResolved(false))]);
    }

    // ---- removals ----

    /** A burial signed by this device, of another or of itself. */
    method RemoveDevice(c: Platform, subject: DeviceId, reason: RemovalReason, removedAt: string, now: int)
      returns (result: Result<seq<LedgerEntry>, RemovalRefusal>)
      modifies this, churn
      ensures (Value(), result) == RemoveOwn(c, old(Value()), subject, reason, removedAt, now)
    {
      if !IsActive(Value(), selfId) {
        return Err(RemoverNotActive(selfId));
      }
      var newEpoch := epoch + 1;
      if subject != selfId {
        churn.Record(selfId, TimestampOr(c, removedAt, now), now);
      }
      var ledger := ApplyTombstone(Tombstone(subject, reason, removedAt, selfId, newEpoch));
      result := Ok(ledger);
    }

    method ReceiveOwnRemoval(c: Platform, m: Remove, remover: DeviceId) returns (a: Applied<Removal>)
      modifies this
      ensures (Value(), a) == ReceiveRemovalOfSelf(c, old(Value()), m, remover)
    {
      if remover !in devices || !c.usable(devices[remover].identityPk) {
        return Applied(RefusedRemoval(RemoverNotActive(remover)), [LedgerEntry(m.subject, VouchRejected)]);
      }
      if !c.removalVerifies(devices[remover].identityPk, m) {
        return Applied(RefusedRemoval(BadRemovalSignature), [LedgerEntry(m.subject, VouchRejected)]);
      }
      removedMe := removedMe + {remover};
      if m.epoch > epoch {
        epoch := m.epoch;
      }
      var split := SplitEntries(remover);
      a := Applied(AboutSelf, [LedgerEntry(remover, DeviceRemoved(remover, m.reason))] + split);
    }

    method ReceiveRemoval(c: Platform, m: Remove, remover: DeviceId, now: int) returns (a: Applied<Removal>)
      modifies this, churn
      ensures (Value(), a) == ReceiveRemove(c, old(Value()), m, remover, now)
    {
      if m.subject == selfId {
        a := ReceiveOwnRemoval(c, m, remover);
        return;
      }
      if !IsActive(Value(), remover) {
        return Applied(RefusedRemoval(RemoverNotActive(remover)), [LedgerEntry(m.subject, VouchRejected)]);
      }
      var key := devices[remover].identityPk;
      if !c.usable(key) || !c.removalVerifies(key, m) {
        return Applied(RefusedRemoval(BadRemovalSignature), [LedgerEntry(m.subject, VouchRejected)]);
      }
      if m.subject != remover {
        churn.Record(remover, TimestampOr(c, m.removedAt, now), now);
      }
      if m.subject in tombstones {
        return Applied(AlreadyRemoved, []);
      }
      var ledger := ApplyTombstone(TombstoneOf(m, remover));
      a := Applied(RemovalApplied, ledger);
    }

    // ---- sync ----

    /** Take in one reported device. */
    method MergeReported(ghost g: Merge, reported: SyncDevice, theirEpoch: nat, sender: DeviceId)
      returns (removals: nat, anomalies: seq<DeviceId>, ledger: seq<LedgerEntry>)
      requires g.r == Value()
      modifies this, churn
      ensures var q := MergeOne(g, reported, theirEpoch, sender);
              Value() == q.r && g.removals + removals == q.removals && g.anomalies + anomalies == q.anomalies
              && g.ledger + ledger == q.ledger
    {
      removals, anomalies, ledger := 0, [], [];
      var d := reported.deviceId;
      if d !in devices {
        if d !in tombstones {
          anomalies, ledger := [d], [LedgerEntry(d, VouchRejected)];
        }
      } else if reported.state == Removed {
        if d == selfId {
          removedMe := removedMe + {sender};
          ledger := SplitEntries(sender);
        } else if d !in tombstones {
          removals := 1;
          ledger := ApplyTombstone(SyncTombstone(d, sender, Max(epoch, theirEpoch)));
        }
      }
    }

    method MergeDevices(reported: seq<SyncDevice>, theirEpoch: nat, sender: DeviceId)
      returns (removals: nat, anomalies: seq<DeviceId>, ledger: seq<LedgerEntry>)
      modifies this, churn
      ensures Merge(Value(), removals, anomalies, ledger) == MergeAll(old(Value()), reported, theirEpoch, sender)
    {
      ghost var start := Value();
      removals, anomalies, ledger := 0, [], [];
      for i := 0 to |reported|
        invariant Merge(Value(), removals, anomalies, ledger) == MergeAll(start, reported[..i], theirEpoch, sender)
      {
        assert reported[..i + 1][..i] == reported[..i];
        var n, more, entries := MergeReported(Merge(Value(), removals, anomalies, ledger), reported[i], theirEpoch, sender);
        removals, anomalies, ledger := removals + n, anomalies + more, ledger + entries;
      }
      assert reported[..|reported|] == reported;
    }

    method ReceiveSyncMessage(c: Platform, m: SyncMessage, sender: DeviceId) returns (a: Applied<SyncOutcome>)
      modifies this, churn
      ensures (Value(), a) == ReceiveSync(c, old(Value()), m, sender)
    {
      if c.digest(m.epoch, m.devices) != m.digest {
        return Applied(BadDigest, []);
      }
      if !IsActive(Value(), sender) {
        return Applied(RefusedSync(sender), []);
      }
      if m.epoch == epoch && m.devices == SyncDevices(Value()) {
        return Applied(InSync, []);
      }
      var removals, anomalies, ledger := MergeDevices(m.devices, m.epoch, sender);
      if m.epoch > epoch {
        epoch := m.epoch;
        ledger := ledger + [LedgerEntry(sender, EpochBumped(epoch))];
      }
      a := Applied(Merged(removals, anomalies), ledger);
    }

    // ---- the server's list ----

    method ReconcileServerList(listed: seq<ServerDevice>) returns (a: Applied<seq<ServerFinding>>)
      modifies this
      ensures (Value(), a) == Reconcile(old(Value()), listed)
    {
      ghost var start := Value();
      var findings: seq<ServerFinding> := [];
      var ledger: seq<LedgerEntry> := [];
      for i := 0 to |listed|
        invariant Reconciliation(Value(), findings, ledger) == ReconcileAll(start, listed[..i])
      {
        assert listed[..i + 1][..i] == listed[..i];
        var d := listed[i].deviceId;
        if d !in devices {
          findings := findings + [Unvouched(d)];
          ledger := ledger + [LedgerEntry(d, UnvouchedDeviceListed)];
        } else if devices[d].state == Active {
          if listed[i].revoked {
            findings := findings + [RevokedByServer(d)];
            devices := devices[d := devices[d].(state := Removed)];
            ledger := ledger + [LedgerEntry(d, DeviceRemoved("server", RemovedByMember))];
          } else {
            findings := findings + [Normal(d)];
          }
        }
      }
      assert listed[..|listed|] == listed;
      var unlisted := FindUnlisted(ListedIds(listed));
      a := Applied(findings + unlisted, ledger);
    }

    method FindUnlisted(seen: set<DeviceId>) returns (findings: seq<ServerFinding>)
      ensures findings == UnlistedAmong(Value(), SortedKeys(devices.Keys), seen)
    {
      var ids := SortedKeys(devices.Keys);
      findings := [];
      for i := 0 to |ids|
        invariant findings == UnlistedAmong(Value(), ids[..i], seen)
      {
        assert ids[..i + 1][..i] == ids[..i];
        if devices[ids[i]].state == Active && ids[i] !in seen {
          findings := findings + [Unreachable(ids[i])];
        }
      }
      assert ids[..|ids|] == ids;
    }

    // ---- labels ----

    method Relabel(d: DeviceId, name: Option<string>, group: Option<string>, role: Option<string>)
      returns (a: Applied<bool>)
      modifies this
      ensures (Value(), a) == UpdateLabels(old(Value()), d, name, group, role)
    {
      if d !in devices {
        return Applied(false, []);
      }
      var rec := devices[d];
      var ledger: seq<LedgerEntry> := [];
      if name.Some? && name.value != rec.displayName {
        rec := rec.(displayName := name.value);
        ledger := ledger + [LedgerEntry(d, LabelsChanged("display_name", name.value))];
      }
      if group.Some? && group.value != rec.memberGroup {
        rec := rec.(memberGroup := group.value);
        ledger := ledger + [LedgerEntry(d, LabelsChanged("member_group", group.value))];
      }
      if role.Some? && role.value != rec.role {
        rec := rec.(role := role.value);
        ledger := ledger + [LedgerEntry(d, LabelsChanged("role", role.value))];
      }
      ghost var was := devices[d];
      assert rec == Relabelled(was, name, group, role);
      assert ledger == LabelLedger(d, "display_name", name, was.displayName)
                       + LabelLedger(d, "member_group", group, was.memberGroup)
                       + LabelLedger(d, "role", role, was.role);
      devices := devices[d := rec];
      a := Applied(ledger != [], ledger);
    }
  }
}
