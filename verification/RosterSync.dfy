/** Sync: what a merge does, that repeating it does nothing more, and that two exchanges agree. */
module RosterSync {
  import opened Wrappers
  import opened StringOrder
  import opened RosterModel
  import opened RosterInvariants
  import opened RosterProvenance

  predicate ReportedRemoved(reported: seq<SyncDevice>, d: DeviceId) {
    exists i :: 0 <= i < |reported| && reported[i].deviceId == d && reported[i].state == Removed
  }

  lemma ReportedAppend(reported: seq<SyncDevice>, d: DeviceId)
    requires reported != []
    ensures var n := |reported| - 1;
            ReportedRemoved(reported, d) <==>
              ReportedRemoved(reported[..n], d) || (reported[n].deviceId == d && reported[n].state == Removed)
  {
    var n := |reported| - 1;
    if ReportedRemoved(reported, d) && !(reported[n].deviceId == d && reported[n].state == Removed) {
      var i :| 0 <= i < |reported| && reported[i].deviceId == d && reported[i].state == Removed;
      assert reported[..n][i] == reported[i];
    }
    if ReportedRemoved(reported[..n], d) {
      var i :| 0 <= i < n && reported[..n][i].deviceId == d && reported[..n][i].state == Removed;
      assert reported[i].deviceId == d;
    }
  }

  // ---- the effect of a merge ----

  lemma MergeOneActivity(g: Merge, rep: SyncDevice, epoch: nat, sender: DeviceId, d: DeviceId)
    requires Inv(g.r)
    ensures IsActive(MergeOne(g, rep, epoch, sender).r, d)
       <==> IsActive(g.r, d) && !(d != g.r.selfId && rep.deviceId == d && rep.state == Removed)
    ensures MergeOne(g, rep, epoch, sender).r.selfId == g.r.selfId
  {
  }

  /** After a merge a device is active exactly if it was and the sender does not report it removed, this
      device's own standing aside. */
  lemma {:induction false} MergeActivity(
    r: Roster, reported: seq<SyncDevice>, epoch: nat, sender: DeviceId, d: DeviceId)
    requires Inv(r)
    ensures IsActive(MergeAll(r, reported, epoch, sender).r, d)
       <==> IsActive(r, d) && !(d != r.selfId && ReportedRemoved(reported, d))
  {
    if reported != [] {
      var n := |reported| - 1;
      var g := MergeAll(r, reported[..n], epoch, sender);
      MergeActivity(r, reported[..n], epoch, sender, d);
      MergeAllSound(r, reported[..n], epoch, sender);
      MergeOneActivity(g, reported[n], epoch, sender, d);
      ReportedAppend(reported, d);
    }
  }

  lemma {:induction false} MergeEpoch(r: Roster, reported: seq<SyncDevice>, epoch: nat, sender: DeviceId)
    ensures r.epoch <= MergeAll(r, reported, epoch, sender).r.epoch <= Max(r.epoch, epoch)
  {
    if reported != [] {
      MergeEpoch(r, reported[..|reported| - 1], epoch, sender);
    }
  }

  lemma SyncDevicesReport(r: Roster, d: DeviceId)
    requires Keyed(r)
    ensures ReportedRemoved(SyncDevices(r), d) <==> d in r.devices && !IsActive(r, d)
  {
    var ids := SortedKeys(r.devices.Keys);
    var reported := SyncDevices(r);
    assert forall i :: 0 <= i < |ids| ==> ids[i] in ids && reported[i].deviceId == ids[i];
    if d in r.devices && !IsActive(r, d) {
      assert d in ids;
      var i :| 0 <= i < |ids| && ids[i] == d;
      assert reported[i].deviceId == d && reported[i].state == Removed;
    }
  }

  predicate Accepted(a: Applied<SyncOutcome>) {
    a.outcome.InSync? || a.outcome.Merged?
  }

  /** An accepted sync sets the epoch to the larger of the two and leaves active exactly those who were active
      and whom the sender does not report removed. It admits no one, whatever the sender claims to know. */
  lemma SyncEffect(c: Platform, r: Roster, m: SyncMessage, sender: DeviceId, d: DeviceId)
    requires Inv(r) && Accepted(ReceiveSync(c, r, m, sender).1)
    ensures var q := ReceiveSync(c, r, m, sender).0;
            && q.selfId == r.selfId
            && q.epoch == Max(r.epoch, m.epoch)
            && (IsActive(q, d) <==> IsActive(r, d) && !(d != r.selfId && ReportedRemoved(m.devices, d)))
  {
    MergeActivity(r, m.devices, m.epoch, sender, d);
    MergeEpoch(r, m.devices, m.epoch, sender);
    SyncDevicesReport(r, d);
    SyncSound(c, r, m, sender);
  }

  /** A sync is accepted exactly when its digest fits its contents and its sender is active here. */
  lemma SyncAcceptedExactlyWhen(c: Platform, r: Roster, m: SyncMessage, sender: DeviceId)
    ensures Accepted(ReceiveSync(c, r, m, sender).1)
       <==> c.digest(m.epoch, m.devices) == m.digest && IsActive(r, sender)
    ensures !Accepted(ReceiveSync(c, r, m, sender).1) ==> ReceiveSync(c, r, m, sender).0 == r
  {
  }

  // ---- receiving the same sync again ----

  /** Everything the sync reports has already been taken in. */
  ghost predicate Absorbed(r: Roster, reported: seq<SyncDevice>, sender: DeviceId) {
    forall i :: 0 <= i < |reported| && reported[i].state == Removed && reported[i].deviceId in r.devices ==>
      if reported[i].deviceId == r.selfId then sender in r.removedMe else reported[i].deviceId in r.tombstones
  }

  lemma MergeOneGrows(g: Merge, rep: SyncDevice, epoch: nat, sender: DeviceId, reported: seq<SyncDevice>)
    requires Absorbed(g.r, reported, sender)
    ensures var q := MergeOne(g, rep, epoch, sender).r;
            && Absorbed(q, reported, sender) && Absorbed(q, [rep], sender)
            && q.devices.Keys == g.r.devices.Keys && q.selfId == g.r.selfId
  {
    var q := MergeOne(g, rep, epoch, sender).r;
    assert g.r.tombstones.Keys <= q.tombstones.Keys && g.r.removedMe <= q.removedMe;
  }

  lemma {:induction false} MergeAbsorbs(r: Roster, reported: seq<SyncDevice>, epoch: nat, sender: DeviceId)
    ensures Absorbed(MergeAll(r, reported, epoch, sender).r, reported, sender)
  {
    if reported != [] {
      var n := |reported| - 1;
      MergeAbsorbs(r, reported[..n], epoch, sender);
      MergeOneGrows(MergeAll(r, reported[..n], epoch, sender), reported[n], epoch, sender, reported[..n]);
      var q := MergeAll(r, reported, epoch, sender).r;
      assert forall i :: 0 <= i < |reported| ==> reported[i] == if i < n then reported[..n][i] else [reported[n]][0];
    }
  }

  lemma {:induction false} AbsorbedIsFixed(r: Roster, reported: seq<SyncDevice>, epoch: nat, sender: DeviceId)
    requires Absorbed(r, reported, sender)
    ensures MergeAll(r, reported, epoch, sender).r == r
  {
    if reported != [] {
      var n := |reported| - 1;
      assert forall i :: 0 <= i < n ==> reported[..n][i] == reported[i];
      AbsorbedIsFixed(r, reported[..n], epoch, sender);
      assert sender in r.removedMe ==> r.removedMe + {sender} == r.removedMe;
    }
  }

  /** Receiving the same sync from the same sender a second time changes nothing. */
  lemma SyncIdempotent(c: Platform, r: Roster, m: SyncMessage, sender: DeviceId)
    ensures var q := ReceiveSync(c, r, m, sender).0;
            ReceiveSync(c, q, m, sender).0 == q
  {
    var g := MergeAll(r, m.devices, m.epoch, sender);
    var q := ReceiveSync(c, r, m, sender).0;
    if ReceiveSync(c, r, m, sender).1.outcome.Merged? {
      MergeAbsorbs(r, m.devices, m.epoch, sender);
      assert Absorbed(q, m.devices, sender);
      AbsorbedIsFixed(q, m.devices, m.epoch, sender);
    }
  }

  // ---- two devices ----

  /** After one exchange each way between members who hold each other active, both have the same epoch and agree
      on every third device they both know: it is active where both held it active before, and nowhere else. */
  lemma SyncConverges(c: Platform, a: Roster, b: Roster, d: DeviceId)
    requires Inv(a) && Inv(b) && IsActive(b, a.selfId) && IsActive(a, b.selfId)
    requires d in a.devices && d in b.devices && d != a.selfId && d != b.selfId
    ensures var b' := ReceiveSync(c, b, Sync(c, a), a.selfId).0;
            var a' := ReceiveSync(c, a, Sync(c, b'), b.selfId).0;
            && a'.epoch == b'.epoch == Max(a.epoch, b.epoch)
            && (IsActive(a', d) <==> IsActive(a, d) && IsActive(b, d))
            && (IsActive(b', d) <==> IsActive(a, d) && IsActive(b, d))
  {
    HalfExchange(c, a, b, d);
    HalfExchange(c, ReceiveSync(c, b, Sync(c, a), a.selfId).0, a, d);
  }

  /** What a sync from `a` makes of `b`. */
  lemma HalfExchange(c: Platform, a: Roster, b: Roster, d: DeviceId)
    requires Inv(a) && Inv(b) && IsActive(b, a.selfId) && d in a.devices && d in b.devices && d != b.selfId
    ensures var b' := ReceiveSync(c, b, Sync(c, a), a.selfId).0;
            && Inv(b') && b'.selfId == b.selfId && d in b'.devices && b'.epoch == Max(a.epoch, b.epoch)
            && (IsActive(b', d) <==> IsActive(a, d) && IsActive(b, d))
  {
    SyncAcceptedExactlyWhen(c, b, Sync(c, a), a.selfId);
    SyncEffect(c, b, Sync(c, a), a.selfId, d);
    SyncDevicesReport(a, d);
    SyncSound(c, b, Sync(c, a), a.selfId);
    KeyChangesExactlyWhen(c, b, DoSync(Sync(c, a), a.selfId), d);
  }

  lemma MergeOneTombstones(g: Merge, rep: SyncDevice, epoch: nat, sender: DeviceId, d: DeviceId)
    ensures var h := MergeOne(g, rep, epoch, sender);
            && h.r.devices.Keys == g.r.devices.Keys && h.r.selfId == g.r.selfId
            && (d in h.r.tombstones <==>
                  || d in g.r.tombstones
                  || (d in g.r.devices && d != g.r.selfId && rep.deviceId == d && rep.state == Removed))
  {
  }

  lemma {:induction false} MergeTombstones(
    r: Roster, reported: seq<SyncDevice>, epoch: nat, sender: DeviceId, d: DeviceId)
    ensures var q := MergeAll(r, reported, epoch, sender).r;
            && q.devices.Keys == r.devices.Keys && q.selfId == r.selfId
            && (d in q.tombstones <==>
                  d in r.tombstones || (d in r.devices && d != r.selfId && ReportedRemoved(reported, d)))
  {
    if reported != [] {
      var n := |reported| - 1;
      MergeTombstones(r, reported[..n], epoch, sender, d);
      MergeOneTombstones(MergeAll(r, reported[..n], epoch, sender), reported[n], epoch, sender, d);
      ReportedAppend(reported, d);
    }
  }

  /** A sync buries exactly the devices known here, this one aside, that its sender reports removed, when it is merged:
      active here or not. A sync that finds nothing to merge buries no one. */
  lemma SyncBuriesExactlyWhen(c: Platform, r: Roster, m: SyncMessage, sender: DeviceId, d: DeviceId)
    ensures var (q, a) := ReceiveSync(c, r, m, sender);
            d in q.tombstones <==>
              || d in r.tombstones
              || (a.outcome.Merged? && d in r.devices && d != r.selfId && ReportedRemoved(m.devices, d))
  {
    MergeTombstones(r, m.devices, m.epoch, sender, d);
  }
}
