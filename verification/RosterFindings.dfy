/** What a roster reports of a merge and of the server's list, and the keys it can rely on. */
module RosterFindings {
  import opened Wrappers
  import opened StringOrder
  import opened RosterModel
  import opened RosterInvariants
  import opened RosterProvenance

  // ---- the outcome of a merge ----

  predicate Reported(reported: seq<SyncDevice>, d: DeviceId) {
    exists i :: 0 <= i < |reported| && reported[i].deviceId == d
  }

  lemma ReportedLast(reported: seq<SyncDevice>, d: DeviceId)
    requires reported != []
    ensures var n := |reported| - 1; Reported(reported, d) <==> Reported(reported[..n], d) || reported[n].deviceId == d
  {
    var n := |reported| - 1;
    if Reported(reported, d) && reported[n].deviceId != d {
      var i :| 0 <= i < |reported| && reported[i].deviceId == d;
      assert reported[..n][i].deviceId == d;
    }
    if Reported(reported[..n], d) {
      var i :| 0 <= i < n && reported[..n][i].deviceId == d;
      assert reported[i].deviceId == d;
    }
  }

  predicate Strange(r: Roster, d: DeviceId) {
    d !in r.devices && d !in r.tombstones
  }

  lemma MergeOneReport(g: Merge, rep: SyncDevice, epoch: nat, sender: DeviceId, d: DeviceId)
    ensures var h := MergeOne(g, rep, epoch, sender);
            && h.r.devices.Keys == g.r.devices.Keys && (Strange(h.r, d) <==> Strange(g.r, d))
            && (d in h.anomalies <==> d in g.anomalies || (rep.deviceId == d && Strange(g.r, d)))
            && h.removals + |g.r.tombstones| == g.removals + |h.r.tombstones|
  {
    var h := MergeOne(g, rep, epoch, sender);
    if h.r.tombstones != g.r.tombstones {
      assert h.r.tombstones.Keys == g.r.tombstones.Keys + {rep.deviceId};
    }
  }

  /** The outcome of a merge names exactly the devices the sender knows and this roster neither knows nor has buried,
      and counts exactly the tombstones the merge has made. */
  lemma {:induction false} MergeReport(r: Roster, reported: seq<SyncDevice>, epoch: nat, sender: DeviceId, d: DeviceId)
    ensures var g := MergeAll(r, reported, epoch, sender);
            && (Strange(g.r, d) <==> Strange(r, d))
            && (d in g.anomalies <==> Reported(reported, d) && Strange(r, d))
            && g.removals + |r.tombstones| == |g.r.tombstones|
  {
    if reported != [] {
      var n := |reported| - 1;
      MergeReport(r, reported[..n], epoch, sender, d);
      MergeOneReport(MergeAll(r, reported[..n], epoch, sender), reported[n], epoch, sender, d);
      ReportedLast(reported, d);
    }
  }

  // ---- the server's list ----

  predicate RevokedIn(listed: seq<ServerDevice>, d: DeviceId) {
    exists i :: 0 <= i < |listed| && listed[i] == ServerDevice(d, true)
  }

  predicate ListedIn(listed: seq<ServerDevice>, d: DeviceId) {
    exists i :: 0 <= i < |listed| && listed[i].deviceId == d
  }

  lemma ListedLast(listed: seq<ServerDevice>, d: DeviceId)
    requires listed != []
    ensures var n := |listed| - 1;
            && (RevokedIn(listed, d) <==> RevokedIn(listed[..n], d) || listed[n] == ServerDevice(d, true))
            && (ListedIn(listed, d) <==> ListedIn(listed[..n], d) || listed[n].deviceId == d)
  {
    var n := |listed| - 1;
    assert forall i :: 0 <= i < n ==> listed[..n][i] == listed[i];
    if RevokedIn(listed[..n], d) {
      var i :| 0 <= i < n && listed[..n][i] == ServerDevice(d, true);
      assert listed[i] == ServerDevice(d, true);
    }
    if ListedIn(listed[..n], d) {
      var i :| 0 <= i < n && listed[..n][i].deviceId == d;
      assert listed[i].deviceId == d;
    }
  }

  /** What the walk over the list says of one device, and does to it. */
  ghost predicate WalkSays(r: Roster, listed: seq<ServerDevice>, g: Reconciliation, d: DeviceId) {
    && g.r.devices.Keys == r.devices.Keys
    && (IsActive(g.r, d) <==> IsActive(r, d) && !RevokedIn(listed, d))
    && (Unvouched(d) in g.findings <==> ListedIn(listed, d) && d !in r.devices)
    && (RevokedByServer(d) in g.findings <==> IsActive(r, d) && RevokedIn(listed, d))
    && ServerFinding.Unreachable(d) !in g.findings
  }

  lemma {:induction false} ReconcileWalk(r: Roster, listed: seq<ServerDevice>, d: DeviceId)
    ensures WalkSays(r, listed, ReconcileAll(r, listed), d)
  {
    if listed != [] {
      var n := |listed| - 1;
      ReconcileWalk(r, listed[..n], d);
      ListedLast(listed, d);
      WalkOne(r, listed, ReconcileAll(r, listed[..n]), d);
    }
  }

  lemma WalkOne(r: Roster, listed: seq<ServerDevice>, g: Reconciliation, d: DeviceId)
    requires listed != [] && WalkSays(r, listed[..|listed| - 1], g, d)
    ensures WalkSays(r, listed, ReconcileOne(g, listed[|listed| - 1]), d)
  {
    var last := listed[|listed| - 1];
    ListedLast(listed, d);
    var h := ReconcileOne(g, last);
    assert h.findings == g.findings || exists f :: h.findings == g.findings + [f];
  }

  lemma {:induction false} UnlistedExactly(r: Roster, ids: seq<DeviceId>, listed: set<DeviceId>, f: ServerFinding)
    ensures f in UnlistedAmong(r, ids, listed)
       <==> f.Unreachable? && f.deviceId in ids && IsActive(r, f.deviceId) && f.deviceId !in listed
  {
    if ids != [] {
      UnlistedExactly(r, ids[..|ids| - 1], listed, f);
      assert ids == ids[..|ids| - 1] + [ids[|ids| - 1]];
    }
  }

  /** The server's list takes from the family exactly those it lists as revoked. It is reported that a device was never
      vouched for, was revoked, or is out of reach exactly when the list names one unknown here, lists an active one as
      revoked, or leaves an active one out. */
  lemma FindingsExactly(r: Roster, listed: seq<ServerDevice>, d: DeviceId)
    ensures var (q, a) := Reconcile(r, listed);
            && (IsActive(q, d) <==> IsActive(r, d) && !RevokedIn(listed, d))
            && (Unvouched(d) in a.outcome <==> ListedIn(listed, d) && d !in r.devices)
            && (RevokedByServer(d) in a.outcome <==> IsActive(r, d) && RevokedIn(listed, d))
            && (ServerFinding.Unreachable(d) in a.outcome <==> IsActive(r, d) && !ListedIn(listed, d))
  {
    var g := ReconcileAll(r, listed);
    var ids := SortedKeys(g.r.devices.Keys);
    ReconcileWalk(r, listed, d);
    UnlistedExactly(g.r, ids, ListedIds(listed), ServerFinding.Unreachable(d));
    UnlistedExactly(g.r, ids, ListedIds(listed), Unvouched(d));
    UnlistedExactly(g.r, ids, ListedIds(listed), RevokedByServer(d));
    assert d in ListedIds(listed) <==> ListedIn(listed, d);
    assert RevokedIn(listed, d) ==> ListedIn(listed, d);
  }

  // ---- usable keys ----

  /** Every recorded identity key, and every key waiting in the quarantine, can be used to verify. */
  ghost predicate KeysUsable(c: Platform, r: Roster) {
    && (forall d :: d in r.devices ==> c.usable(r.devices[d].identityPk))
    && (forall d :: d in r.held ==> c.usable(r.held[d].message.subject.identityPk))
  }

  lemma IntroduceKeepsUsable(c: Platform, r: Roster, m: Introduce, introducer: DeviceId, now: int)
    requires KeysUsable(c, r)
    ensures KeysUsable(c, ReceiveIntroduce(c, r, m, introducer, now).0)
  {
  }

  lemma RemovalKeepsUsable(c: Platform, r: Roster, step: Step)
    requires KeysUsable(c, r) && (step.DoRemoveOwn? || step.DoReceiveRemove?)
    ensures KeysUsable(c, Next(c, r, step).0)
  {
  }

  lemma {:induction false} MergeKeepsUsable(
    c: Platform, r: Roster, reported: seq<SyncDevice>, epoch: nat, sender: DeviceId)
    requires KeysUsable(c, r)
    ensures KeysUsable(c, MergeAll(r, reported, epoch, sender).r)
  {
    if reported != [] {
      MergeKeepsUsable(c, r, reported[..|reported| - 1], epoch, sender);
    }
  }

  lemma {:induction false} ReconcileKeepsUsable(c: Platform, r: Roster, listed: seq<ServerDevice>)
    requires KeysUsable(c, r)
    ensures KeysUsable(c, ReconcileAll(r, listed).r)
  {
    if listed != [] {
      ReconcileKeepsUsable(c, r, listed[..|listed| - 1]);
    }
  }

  lemma StepKeepsUsable(c: Platform, r: Roster, step: Step)
    requires KeysUsable(c, r)
    ensures KeysUsable(c, Next(c, r, step).0)
  {
    match step
    case DoIntroduce(m, introducer, now) => IntroduceKeepsUsable(c, r, m, introducer, now);
    case DoRemoveOwn(_, _, _, _) => RemovalKeepsUsable(c, r, step);
    case DoReceiveRemove(_, _, _) => RemovalKeepsUsable(c, r, step);
    case DoSync(m, sender) => MergeKeepsUsable(c, r, m.devices, m.epoch, sender);
    case DoReconcile(listed) => ReconcileKeepsUsable(c, r, listed);
    case _ =>
  }

  lemma {:induction false} ReachableUsable(c: Platform, start: Roster, steps: seq<Step>)
    requires KeysUsable(c, start)
    ensures KeysUsable(c, Run(c, start, steps))
  {
    if steps != [] {
      ReachableUsable(c, start, steps[..|steps| - 1]);
      StepKeepsUsable(c, Run(c, start, steps[..|steps| - 1]), steps[|steps| - 1]);
    }
  }

  /** In every family whose founder's key is usable, an unusable key never gets in; a vouch is refused for an unusable
      key only if that key is the one it vouches for. */
  lemma MalformedOnlySubject(
    c: Platform, me: Subject, steps: seq<Step>, m: Introduce, introducer: DeviceId)
    requires c.usable(me.identityPk)
    ensures var r := Run(c, Found(me), steps);
            && KeysUsable(c, r)
            && (VouchRule(c, r, m, introducer) == Some(MalformedIdentityKey) ==> !c.usable(m.subject.identityPk))
  {
    ReachableUsable(c, Found(me), steps);
  }
}
