/** Two founded rosters between which a server's revocation becomes a tombstone. */
module RosterRevocationWitness {
  import opened Wrappers
  import opened RosterModel
  import opened RosterInvariants
  import opened RosterProvenance
  import opened RosterRevocation
  import opened RosterWitness
  import Churn

  /** A device founds a family and lets two others in. */
  function Trio(me: DeviceId, y: DeviceId, z: DeviceId, now: int): seq<Step> {
    [DoIntroduce(VouchFor(y, "k"), me, now)] + [DoIntroduce(VouchFor(z, "k"), me, now)]
  }

  lemma OneJoins(c: Platform, r: Roster, me: DeviceId, y: DeviceId, now: int)
    requires Trusting(c) && now >= 0 && r.tombstones == map[] && IsActive(r, me) && y !in r.devices
    requires ActiveCount(r) < 10 && Churn.CountInWindow(r.churn, me, now) < 5
    ensures var q := Next(c, r, DoIntroduce(VouchFor(y, "k"), me, now)).0;
            && q.tombstones == map[] && q.devices == r.devices[y := FromVouch(Someone(y, "k"), me)]
            && ActiveCount(q) == ActiveCount(r) + 1
            && Churn.CountInWindow(q.churn, me, now) == Churn.CountInWindow(r.churn, me, now) + 1
  {
    Admits(c, r, y, "k", me, now);
    RecordedCount(r.churn, me, now, me);
    AdmitCount(r, Next(c, r, DoIntroduce(VouchFor(y, "k"), me, now)).0, y);
  }

  lemma AllThreeActive(c: Platform, me: DeviceId, y: DeviceId, z: DeviceId, now: int)
    requires Trusting(c) && now >= 0 && me != y && me != z && y != z
    ensures var r := Run(c, Found(Someone(me, "k")), Trio(me, y, z, now));
            && Inv(r) && r.selfId == me && IsActive(r, me) && IsActive(r, y) && IsActive(r, z)
  {
    var start, one := Found(Someone(me, "k")), [DoIntroduce(VouchFor(y, "k"), me, now)];
    FoundInv(Someone(me, "k"));
    ReachableInv(c, start, Trio(me, y, z, now));
    assert ActiveSet(start) == {me};
    OneJoins(c, start, me, y, now);
    RunAppend(c, start, [], DoIntroduce(VouchFor(y, "k"), me, now));
    assert [] + [DoIntroduce(VouchFor(y, "k"), me, now)] == one;
    OneJoins(c, Run(c, start, one), me, z, now);
    RunAppend(c, start, one, DoIntroduce(VouchFor(z, "k"), me, now));
  }

  lemma ListRun(c: Platform, start: Roster, steps: seq<Step>, listed: seq<ServerDevice>)
    ensures Run(c, start, steps + [DoReconcile(listed)]) == Reconcile(Run(c, start, steps), listed).0
  {
    RunAppend(c, start, steps, DoReconcile(listed));
  }

  lemma SyncRun(c: Platform, start: Roster, steps: seq<Step>, m: SyncMessage, sender: DeviceId)
    ensures Run(c, start, steps + [DoSync(m, sender)]) == ReceiveSync(c, Run(c, start, steps), m, sender).0
  {
    RunAppend(c, start, steps, DoSync(m, sender));
  }

  lemma RunsBury(c: Platform, f: Roster, s: seq<Step>, g: Roster, t: seq<Step>, z: DeviceId)
    requires var a, b := Run(c, f, s), Run(c, g, t);
             && Inv(a) && Inv(b) && IsActive(b, a.selfId) && IsActive(a, z) && IsActive(b, z) && z != b.selfId
    ensures var a := Run(c, f, s + [DoReconcile([ServerDevice(z, true)])]);
            var b := Run(c, g, t + [DoSync(Sync(c, a), Run(c, f, s).selfId)]);
            z !in a.tombstones && z in b.tombstones
  {
    var seen := Run(c, f, s + [DoReconcile([ServerDevice(z, true)])]);
    ListRun(c, f, s, [ServerDevice(z, true)]);
    SyncRun(c, g, t, Sync(c, seen), Run(c, f, s).selfId);
    UnawareReceiverBuries(c, Run(c, f, s), Run(c, g, t), z);
  }

  /** Three devices know each other. The server revokes the third to the first, which buries no one; the second, which
      knows nothing of it, buries the third at the first's next sync. */
  lemma RevocationBuries(c: Platform, x: DeviceId, y: DeviceId, z: DeviceId, now: int)
    requires Trusting(c) && now >= 0 && x != y && x != z && y != z
    ensures var a := Run(c, Found(Someone(x, "k")), Trio(x, y, z, now) + [DoReconcile([ServerDevice(z, true)])]);
            var b := Run(c, Found(Someone(y, "k")), Trio(y, x, z, now) + [DoSync(Sync(c, a), x)]);
            z !in a.tombstones && z in b.tombstones
  {
    AllThreeActive(c, x, y, z, now);
    AllThreeActive(c, y, x, z, now);
    RunsBury(c, Found(Someone(x, "k")), Trio(x, y, z, now), Found(Someone(y, "k")), Trio(y, x, z, now), z);
  }
}
