/** How a revocation by the server spreads: it leaves no tombstone where it is seen, and may leave one elsewhere. */
module RosterRevocation {
  import opened Wrappers
  import opened RosterModel
  import opened RosterInvariants
  import opened RosterProvenance
  import opened RosterSync
  import opened RosterFindings

  /** Two rosters a sync finds nothing to merge between. */
  predicate InStep(a: Roster, b: Roster) {
    a.epoch == b.epoch && SyncDevices(a) == SyncDevices(b)
  }

  lemma MergedExactlyWhen(c: Platform, a: Roster, b: Roster)
    ensures ReceiveSync(c, b, Sync(c, a), a.selfId).1.outcome.Merged? <==> IsActive(b, a.selfId) && !InStep(a, b)
  {
  }

  lemma ListKeepsRest(a: Roster, listed: seq<ServerDevice>)
    requires Inv(a)
    ensures var q := Reconcile(a, listed).0;
            Inv(q) && q.tombstones == a.tombstones && q.selfId == a.selfId && q.devices.Keys == a.devices.Keys
  {
    ReconcileAllSound(a, listed);
    ReconcileOnlyLeaves(a, listed);
    ReconcileWalk(a, listed, a.selfId);
  }

  /** After taking in any list from the server, a device has the tombstones it had before. Its next sync leaves a
      tombstone at the receiver, where there was none, exactly for the devices both know, the receiver aside, that the
      sender held inactive or the list revokes, and exactly if the receiver holds the sender active and is not already in
      step with it, as one that saw the same revocations is. */
  lemma RevocationSpreadsExactlyWhen(c: Platform, a: Roster, b: Roster, listed: seq<ServerDevice>, d: DeviceId)
    requires Inv(a)
    ensures var seen := Reconcile(a, listed).0;
            var q := ReceiveSync(c, b, Sync(c, seen), a.selfId).0;
            && seen.tombstones == a.tombstones
            && (d in q.tombstones <==>
                  || d in b.tombstones
                  || (IsActive(b, a.selfId) && !InStep(seen, b) && d in a.devices && d in b.devices && d != b.selfId
                      && (!IsActive(a, d) || RevokedIn(listed, d))))
  {
    var seen := Reconcile(a, listed).0;
    ListKeepsRest(a, listed);
    FindingsExactly(a, listed, d);
    SyncDevicesReport(seen, d);
    MergedExactlyWhen(c, seen, b);
    SyncBuriesExactlyWhen(c, b, Sync(c, seen), a.selfId, d);
  }

  /** In particular a receiver that still holds the revoked device active buries it. */
  lemma UnawareReceiverBuries(c: Platform, a: Roster, b: Roster, d: DeviceId)
    requires Inv(a) && Inv(b) && IsActive(b, a.selfId) && IsActive(a, d) && IsActive(b, d) && d != b.selfId
    ensures var seen := Reconcile(a, [ServerDevice(d, true)]).0;
            d !in seen.tombstones && d in ReceiveSync(c, b, Sync(c, seen), a.selfId).0.tombstones
  {
    var listed := [ServerDevice(d, true)];
    var seen := Reconcile(a, listed).0;
    RevocationSpreadsExactlyWhen(c, a, b, listed, d);
    assert listed[0] == ServerDevice(d, true);
    FindingsExactly(a, listed, d);
    SyncDevicesReport(b, d);
    ListKeepsRest(a, listed);
    SyncDevicesReport(seen, d);
  }
}
