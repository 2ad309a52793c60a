/** Who may become active, and on whose word: safety over whole runs of the roster. */
module RosterProvenance {
  import opened Wrappers
  import opened RosterModel
  import opened RosterInvariants
  import Churn

  // ---- what one step can do to activity, held vouches and keys ----

  /** The vouch verifies against the recorded, usable key of an active introducer. */
  predicate VouchChecks(c: Platform, r: Roster, m: Introduce, introducer: DeviceId) {
    HasIdentity(c, r, introducer) && c.vouchVerifies(r.devices[introducer].identityPk, m)
  }

  /** The two ways in: a vouch that checks out now, or the user's approval of one held earlier. */
  predicate LetsIn(c: Platform, r: Roster, step: Step, d: DeviceId) {
    match step
    case DoIntroduce(m, introducer, _) => m.subject.deviceId == d && VouchChecks(c, r, m, introducer)
    case DoApprove(subject) => subject == d && d in r.held && IsActive(r, r.held[d].introducer)
    case _ => false
  }

  ghost predicate OnlyLeaves(r: Roster, q: Roster) {
    forall d :: IsActive(q, d) ==> IsActive(r, d)
  }

  lemma {:induction false} MergeOnlyLeaves(r: Roster, reported: seq<SyncDevice>, epoch: nat, sender: DeviceId)
    ensures OnlyLeaves(r, MergeAll(r, reported, epoch, sender).r)
    ensures MergeAll(r, reported, epoch, sender).r.held.Keys <= r.held.Keys
    ensures forall d :: d in MergeAll(r, reported, epoch, sender).r.held ==>
              MergeAll(r, reported, epoch, sender).r.held[d] == r.held[d]
  {
    if reported != [] {
      MergeOnlyLeaves(r, reported[..|reported| - 1], epoch, sender);
    }
  }

  lemma {:induction false} ReconcileOnlyLeaves(r: Roster, listed: seq<ServerDevice>)
    ensures OnlyLeaves(r, ReconcileAll(r, listed).r)
    ensures ReconcileAll(r, listed).r == r.(devices := ReconcileAll(r, listed).r.devices)
  {
    if listed != [] {
      ReconcileOnlyLeaves(r, listed[..|listed| - 1]);
    }
  }

  lemma RemoveOnlyLeaves(c: Platform, r: Roster, step: Step)
    requires step.DoRemoveOwn? || step.DoReceiveRemove?
    ensures OnlyLeaves(r, Next(c, r, step).0)
  {
  }

  /** Nothing but a checked vouch or an approval makes a device active. */
  lemma OnlyVouchesLetIn(c: Platform, r: Roster, step: Step, d: DeviceId)
    requires Inv(r) && IsActive(Next(c, r, step).0, d) && !IsActive(r, d)
    ensures LetsIn(c, r, step, d)
  {
    match step
    case DoRemoveOwn(_, _, _, _) => RemoveOnlyLeaves(c, r, step);
    case DoReceiveRemove(_, _, _) => RemoveOnlyLeaves(c, r, step);
    case DoSync(m, sender) => MergeOnlyLeaves(r, m.devices, m.epoch, sender);
    case DoReconcile(listed) => ReconcileOnlyLeaves(r, listed);
    case _ =>
  }

  /** A vouch enters the quarantine only after checking out, and is never altered there. */
  lemma HeldOnlyVouched(c: Platform, r: Roster, step: Step, d: DeviceId)
    requires d in Next(c, r, step).0.held
    ensures var h := Next(c, r, step).0.held[d];
            || (d in r.held && r.held[d] == h)
            || (step.DoIntroduce? && step.message == h.message && step.introducer == h.introducer
                && h.message.subject.deviceId == d && VouchChecks(c, r, h.message, h.introducer))
  {
    match step
    case DoIntroduce(m, introducer, now) => IntroduceHolds(c, r, m, introducer, now, d);
    case DoRemoveOwn(_, _, _, _) => RemoveHoldsNothing(c, r, step);
    case DoReceiveRemove(_, _, _) => RemoveHoldsNothing(c, r, step);
    case DoSync(m, sender) => MergeOnlyLeaves(r, m.devices, m.epoch, sender);
    case DoReconcile(listed) => ReconcileOnlyLeaves(r, listed);
    case _ =>
  }

  lemma IntroduceHolds(c: Platform, r: Roster, m: Introduce, introducer: DeviceId, now: int, d: DeviceId)
    requires d in ReceiveIntroduce(c, r, m, introducer, now).0.held
    ensures var h := ReceiveIntroduce(c, r, m, introducer, now).0.held[d];
            || (d in r.held && r.held[d] == h)
            || (m == h.message && introducer == h.introducer && m.subject.deviceId == d
                && VouchChecks(c, r, m, introducer))
  {
  }

  lemma RemoveHoldsNothing(c: Platform, r: Roster, step: Step)
    requires step.DoRemoveOwn? || step.DoReceiveRemove?
    ensures forall d :: d in Next(c, r, step).0.held ==> d in r.held && r.held[d] == Next(c, r, step).0.held[d]
  {
  }

  // ---- runs ----

  /** The roster after the first `n` steps. */
  function At(c: Platform, start: Roster, steps: seq<Step>, n: nat): Roster
    requires n <= |steps|
  {
    Run(c, start, steps[..n])
  }

  lemma AtNext(c: Platform, start: Roster, steps: seq<Step>, n: nat)
    requires n < |steps|
    ensures At(c, start, steps, n + 1) == Next(c, At(c, start, steps, n), steps[n]).0
  {
    assert steps[..n + 1][..n] == steps[..n];
  }

  /** At step `k` this vouch arrived and checked out against the introducer's key as recorded then. */
  predicate ArrivedAt(c: Platform, start: Roster, steps: seq<Step>, k: nat, m: Introduce, introducer: DeviceId) {
    && k < |steps| && steps[k].DoIntroduce? && steps[k].message == m && steps[k].introducer == introducer
    && VouchChecks(c, At(c, start, steps, k), m, introducer)
  }

  ghost predicate ArrivedBy(c: Platform, start: Roster, steps: seq<Step>, n: nat, m: Introduce, introducer: DeviceId) {
    exists k :: 0 <= k < n && ArrivedAt(c, start, steps, k, m, introducer)
  }

  lemma ArrivedStays(c: Platform, start: Roster, steps: seq<Step>, n: nat, m: Introduce, introducer: DeviceId)
    requires ArrivedBy(c, start, steps, n, m, introducer)
    ensures ArrivedBy(c, start, steps, n + 1, m, introducer)
  {
    var k :| 0 <= k < n && ArrivedAt(c, start, steps, k, m, introducer);
    assert 0 <= k < n + 1;
  }

  lemma {:induction false} HeldHasArrived(c: Platform, start: Roster, steps: seq<Step>, n: nat, d: DeviceId)
    requires Inv(start) && start.held == map[] && n <= |steps| && d in At(c, start, steps, n).held
    ensures var h := At(c, start, steps, n).held[d]; ArrivedBy(c, start, steps, n, h.message, h.introducer)
  {
    if n > 0 {
      var r := At(c, start, steps, n - 1);
      AtNext(c, start, steps, n - 1);
      HeldOnlyVouched(c, r, steps[n - 1], d);
      var h := At(c, start, steps, n).held[d];
      if d in r.held && r.held[d] == h {
        HeldHasArrived(c, start, steps, n - 1, d);
        ArrivedStays(c, start, steps, n - 1, h.message, h.introducer);
      } else {
        assert ArrivedAt(c, start, steps, n - 1, h.message, h.introducer);
      }
    }
  }

  // ---- where a record comes from ----

  /** The vouch a step lets its subject in on: the one that arrives, or the held one that is approved. */
  predicate Carries(r: Roster, step: Step, d: DeviceId, m: Introduce, introducer: DeviceId) {
    && m.subject.deviceId == d
    && match step
       case DoIntroduce(message, from, _) => message == m && from == introducer
       case DoApprove(subject) => subject == d && d in r.held && r.held[d].message == m && r.held[d].introducer == introducer
       case _ => false
  }

  /** The record holds what the vouch says of its subject, names who vouched, and is active. */
  predicate FiledAs(rec: DeviceRecord, s: Subject, introducer: DeviceId) {
    && rec.deviceId == s.deviceId && rec.identityPk == s.identityPk && rec.joinedAt == s.joinedAt
    && rec.displayName == s.displayName && rec.memberGroup == s.memberGroup && rec.role == s.role
    && rec.introducedBy == introducer && rec.state == Active
  }

  /** The step files its subject as the vouch describes it, under the vouch's key and its introducer. */
  predicate Writes(c: Platform, r: Roster, step: Step, q: Roster, d: DeviceId, m: Introduce, introducer: DeviceId) {
    && Carries(r, step, d, m, introducer) && IsActive(r, introducer)
    && (step.DoIntroduce? ==> VouchChecks(c, r, m, introducer))
    && d in q.devices && FiledAs(q.devices[d], m.subject, introducer)
  }

  /** The parts of a record no label or removal touches. */
  predicate SameStanding(a: DeviceRecord, b: DeviceRecord) {
    a.deviceId == b.deviceId && a.identityPk == b.identityPk && a.joinedAt == b.joinedAt && a.introducedBy == b.introducedBy
  }

  /** Whatever has been relabelled or removed since, the record is under this vouch's key and introducer. */
  predicate StandsOn(rec: DeviceRecord, m: Introduce, introducer: DeviceId) {
    && rec.deviceId == m.subject.deviceId && rec.identityPk == m.subject.identityPk
    && rec.joinedAt == m.subject.joinedAt && rec.introducedBy == introducer
  }

  predicate Stands(r: Roster, q: Roster, d: DeviceId)
    requires d in q.devices
  {
    d in r.devices && SameStanding(r.devices[d], q.devices[d]) && (IsActive(q, d) ==> IsActive(r, d))
  }

  lemma BuriedStands(r: Roster, log: Churn.Log, t: Tombstone, d: DeviceId)
    requires d in Buried(r.(churn := log), t).devices
    ensures Stands(r, Buried(r.(churn := log), t), d)
  {
  }

  lemma StandsTransitive(r: Roster, q: Roster, s: Roster, d: DeviceId)
    requires d in s.devices && Stands(q, s, d) && Stands(r, q, d)
    ensures Stands(r, s, d)
  {
  }

  lemma MergeOneStands(g: Merge, rep: SyncDevice, epoch: nat, sender: DeviceId, d: DeviceId)
    requires d in MergeOne(g, rep, epoch, sender).r.devices
    ensures Stands(g.r, MergeOne(g, rep, epoch, sender).r, d)
  {
    BuriedStands(g.r, g.r.churn, SyncTombstone(rep.deviceId, sender, Max(g.r.epoch, epoch)), d);
  }

  lemma {:induction false} MergeStands(r: Roster, reported: seq<SyncDevice>, epoch: nat, sender: DeviceId, d: DeviceId)
    ensures d in MergeAll(r, reported, epoch, sender).r.devices ==> Stands(r, MergeAll(r, reported, epoch, sender).r, d)
  {
    if reported != [] && d in MergeAll(r, reported, epoch, sender).r.devices {
      var n := |reported| - 1;
      var g := MergeAll(r, reported[..n], epoch, sender);
      MergeOneStands(g, reported[n], epoch, sender, d);
      MergeStands(r, reported[..n], epoch, sender, d);
      StandsTransitive(r, g.r, MergeAll(r, reported, epoch, sender).r, d);
    }
  }

  lemma {:induction false} ReconcileStands(r: Roster, listed: seq<ServerDevice>, d: DeviceId)
    requires d in ReconcileAll(r, listed).r.devices
    ensures Stands(r, ReconcileAll(r, listed).r, d)
  {
    if listed != [] {
      ReconcileStands(r, listed[..|listed| - 1], d);
    }
  }

  lemma SyncStands(c: Platform, r: Roster, m: SyncMessage, sender: DeviceId, d: DeviceId)
    requires d in ReceiveSync(c, r, m, sender).0.devices
    ensures Stands(r, ReceiveSync(c, r, m, sender).0, d)
  {
    MergeStands(r, m.devices, m.epoch, sender, d);
  }

  lemma RemoveOwnStands(
    c: Platform, r: Roster, subject: DeviceId, reason: RemovalReason, removedAt: string, now: int, d: DeviceId)
    requires d in RemoveOwn(c, r, subject, reason, removedAt, now).0.devices
    ensures Stands(r, RemoveOwn(c, r, subject, reason, removedAt, now).0, d)
  {
    if IsActive(r, r.selfId) {
      var churn := if subject == r.selfId then r.churn
                   else Churn.Recorded(r.churn, r.selfId, TimestampOr(c, removedAt, now), now);
      BuriedStands(r, churn, Tombstone(subject, reason, removedAt, r.selfId, r.epoch + 1), d);
    }
  }

  lemma ReceiveRemoveStands(c: Platform, r: Roster, m: Remove, remover: DeviceId, now: int, d: DeviceId)
    requires d in ReceiveRemove(c, r, m, remover, now).0.devices
    ensures Stands(r, ReceiveRemove(c, r, m, remover, now).0, d)
  {
    if m.subject != r.selfId && d in r.devices {
      BuriedStands(r, ChurnOfRemoval(c, r.churn, m, remover, now), TombstoneOf(m, remover), d);
    }
  }

  lemma AdmitWrites(r: Roster, log: Churn.Log, s: Subject, introducer: DeviceId, d: DeviceId)
    requires d in Admit(r.(churn := log), s, introducer).devices
    ensures Stands(r, Admit(r.(churn := log), s, introducer), d)
         || (d == s.deviceId && FiledAs(Admit(r.(churn := log), s, introducer).devices[d], s, introducer))
  {
  }

  lemma IntroduceWrites(c: Platform, r: Roster, m: Introduce, introducer: DeviceId, now: int, d: DeviceId)
    requires d in ReceiveIntroduce(c, r, m, introducer, now).0.devices
    ensures var q := ReceiveIntroduce(c, r, m, introducer, now).0;
            Stands(r, q, d) || Writes(c, r, DoIntroduce(m, introducer, now), q, d, m, introducer)
  {
    if VouchRule(c, r, m, introducer).None? && !IsActive(r, m.subject.deviceId)
       && !Churn.WouldExceed(r.churn, introducer, now) {
      var log := Churn.Recorded(r.churn, introducer, TimestampOr(c, m.subject.joinedAt, now), now);
      AdmitWrites(r, log, m.subject, introducer, d);
    }
  }

  lemma ApprovalWrites(c: Platform, r: Roster, subject: DeviceId, d: DeviceId)
    requires Inv(r) && d in ApproveHeld(r, subject).0.devices
    ensures var q := ApproveHeld(r, subject).0;
            || Stands(r, q, d)
            || (d in r.held && Writes(c, r, DoApprove(subject), q, d, r.held[d].message, r.held[d].introducer))
  {
  }

  ghost predicate WrittenBy(c: Platform, r: Roster, step: Step, q: Roster, d: DeviceId) {
    exists m, introducer :: Writes(c, r, step, q, d, m, introducer)
  }

  /** A step leaves the standing of a record as it was, or writes the record from the vouch it carries. */
  lemma RecordStep(c: Platform, r: Roster, step: Step, d: DeviceId)
    requires Inv(r) && d in Next(c, r, step).0.devices
    ensures var q := Next(c, r, step).0; Stands(r, q, d) || WrittenBy(c, r, step, q, d)
  {
    match step
    case DoIntroduce(m, introducer, now) => IntroduceWrites(c, r, m, introducer, now, d);
    case DoApprove(subject) => ApprovalWrites(c, r, subject, d);
    case DoRemoveOwn(subject, reason, removedAt, now) => RemoveOwnStands(c, r, subject, reason, removedAt, now, d);
    case DoReceiveRemove(m, remover, now) => ReceiveRemoveStands(c, r, m, remover, now, d);
    case DoSync(m, sender) => SyncStands(c, r, m, sender, d);
    case DoReconcile(listed) => ReconcileStands(r, listed, d);
    case DoDeny(_) =>
    case DoLabels(_, _, _, _) =>
  }

  /** Step `j` writes the record of `d` from the vouch it carries, which checked out when it arrived, at that step or
      earlier; the introducer it names is active just before. */
  ghost predicate WrittenAt(
    c: Platform, start: Roster, steps: seq<Step>, j: nat, d: DeviceId, m: Introduce, introducer: DeviceId)
  {
    && j < |steps|
    && Writes(c, At(c, start, steps, j), steps[j], At(c, start, steps, j + 1), d, m, introducer)
    && ArrivedBy(c, start, steps, j + 1, m, introducer)
  }

  lemma WritingExplained(c: Platform, start: Roster, steps: seq<Step>, j: nat, d: DeviceId, m: Introduce, introducer: DeviceId)
    requires Inv(start) && start.held == map[] && j < |steps|
    requires Writes(c, At(c, start, steps, j), steps[j], At(c, start, steps, j + 1), d, m, introducer)
    ensures WrittenAt(c, start, steps, j, d, m, introducer)
  {
    if steps[j].DoIntroduce? {
      assert ArrivedAt(c, start, steps, j, m, introducer);
    } else {
      HeldHasArrived(c, start, steps, j, d);
      ArrivedStays(c, start, steps, j, m, introducer);
    }
  }

  /** Records. Every record of any run has the identity key, the introducer and the joining time either of a record at
      the start or of a vouch that verified when it arrived and that some step, carrying it, wrote the record from. */
  lemma {:induction false} RecordProvenance(c: Platform, start: Roster, steps: seq<Step>, n: nat, d: DeviceId)
    requires Inv(start) && start.held == map[] && n <= |steps| && d in At(c, start, steps, n).devices
    ensures var rec := At(c, start, steps, n).devices[d];
            || (d in start.devices && SameStanding(start.devices[d], rec))
            || exists j, m, introducer :: 0 <= j < n && WrittenAt(c, start, steps, j, d, m, introducer)
                                          && StandsOn(rec, m, introducer)
  {
    if n > 0 {
      var r := At(c, start, steps, n - 1);
      ReachableInv(c, start, steps[..n - 1]);
      AtNext(c, start, steps, n - 1);
      RecordStep(c, r, steps[n - 1], d);
      if Stands(r, At(c, start, steps, n), d) {
        RecordProvenance(c, start, steps, n - 1, d);
      } else {
        var m, introducer :| Writes(c, r, steps[n - 1], At(c, start, steps, n), d, m, introducer);
        WritingExplained(c, start, steps, n - 1, d, m, introducer);
      }
    }
  }

  // ---- the chain of admissions ----

  /** Step `j` admits `d`, not active until then, on this vouch of this introducer, and files it as the vouch says. */
  ghost predicate AdmittedAt(
    c: Platform, start: Roster, steps: seq<Step>, j: nat, d: DeviceId, m: Introduce, introducer: DeviceId)
  {
    WrittenAt(c, start, steps, j, d, m, introducer) && !IsActive(At(c, start, steps, j), d)
  }

  lemma AdmissionExplained(c: Platform, start: Roster, steps: seq<Step>, j: nat, d: DeviceId)
      returns (m: Introduce, introducer: DeviceId)
    requires Inv(start) && start.held == map[] && j < |steps|
    requires IsActive(At(c, start, steps, j + 1), d) && !IsActive(At(c, start, steps, j), d)
    ensures AdmittedAt(c, start, steps, j, d, m, introducer)
  {
    ReachableInv(c, start, steps[..j]);
    AtNext(c, start, steps, j);
    RecordStep(c, At(c, start, steps, j), steps[j], d);
    m, introducer :| Writes(c, At(c, start, steps, j), steps[j], At(c, start, steps, j + 1), d, m, introducer);
    WritingExplained(c, start, steps, j, d, m, introducer);
  }

  /** A chain of admissions, each at an earlier step than the one before, from `d` back to a device that was
      active at the start. */
  ghost predicate Vouchsafed(c: Platform, start: Roster, steps: seq<Step>, n: nat, d: DeviceId)
    decreases n
  {
    || IsActive(start, d)
    || exists j, m, introducer :: 0 <= j < n && AdmittedAt(c, start, steps, j, d, m, introducer)
                                  && Vouchsafed(c, start, steps, j, introducer)
  }

  lemma VouchsafedStays(c: Platform, start: Roster, steps: seq<Step>, n: nat, d: DeviceId)
    requires Vouchsafed(c, start, steps, n, d)
    ensures Vouchsafed(c, start, steps, n + 1, d)
  {
    if !IsActive(start, d) {
      var j, m, introducer :| 0 <= j < n && AdmittedAt(c, start, steps, j, d, m, introducer)
                              && Vouchsafed(c, start, steps, j, introducer);
      assert 0 <= j < n + 1;
    }
  }

  /** Provenance. Whoever is active after any run is linked to a device active at the start by a chain of
      admissions going strictly back in time. Each is made by a step carrying a vouch for the device that verified
      against the introducer's recorded key when it arrived, is made while the introducer is active, and files the
      device under the vouch's key and introducer. */
  lemma {:induction false} Provenance(c: Platform, start: Roster, steps: seq<Step>, n: nat, d: DeviceId)
    requires Inv(start) && start.held == map[] && n <= |steps| && IsActive(At(c, start, steps, n), d)
    ensures Vouchsafed(c, start, steps, n, d)
    decreases n
  {
    if n > 0 {
      if IsActive(At(c, start, steps, n - 1), d) {
        Provenance(c, start, steps, n - 1, d);
        VouchsafedStays(c, start, steps, n - 1, d);
      } else {
        var m, introducer := AdmissionExplained(c, start, steps, n - 1, d);
        Provenance(c, start, steps, n - 1, introducer);
      }
    }
  }

  /** In a family founded by `me`, every other device that is ever active got in on a checked vouch, and the
      vouches lead back to the founder. */
  lemma FoundedProvenance(c: Platform, me: Subject, steps: seq<Step>, d: DeviceId)
    requires IsActive(Run(c, Found(me), steps), d) && d != me.deviceId
    ensures exists j, m, introducer :: 0 <= j < |steps| && AdmittedAt(c, Found(me), steps, j, d, m, introducer)
                                       && Vouchsafed(c, Found(me), steps, j, introducer)
  {
    FoundInv(me);
    assert steps[..|steps|] == steps;
    Provenance(c, Found(me), steps, |steps|, d);
  }

  /** And every other record, active or not, is filed under the key and the introducer of a checked vouch. */
  lemma FoundedRecords(c: Platform, me: Subject, steps: seq<Step>, d: DeviceId)
    requires d in Run(c, Found(me), steps).devices && d != me.deviceId
    ensures exists j, m, introducer :: 0 <= j < |steps| && WrittenAt(c, Found(me), steps, j, d, m, introducer)
              && StandsOn(Run(c, Found(me), steps).devices[d], m, introducer)
  {
    FoundInv(me);
    assert steps[..|steps|] == steps;
    RecordProvenance(c, Found(me), steps, |steps|, d);
  }

  // ---- identity keys ----

  lemma {:induction false} MergeKeepsKeys(r: Roster, reported: seq<SyncDevice>, epoch: nat, sender: DeviceId, d: DeviceId)
    requires d in r.devices
    ensures d in MergeAll(r, reported, epoch, sender).r.devices
    ensures MergeAll(r, reported, epoch, sender).r.devices[d].identityPk == r.devices[d].identityPk
  {
    if reported != [] {
      MergeKeepsKeys(r, reported[..|reported| - 1], epoch, sender, d);
    }
  }

  lemma {:induction false} ReconcileKeepsKeys(r: Roster, listed: seq<ServerDevice>, d: DeviceId)
    requires d in r.devices
    ensures d in ReconcileAll(r, listed).r.devices
    ensures ReconcileAll(r, listed).r.devices[d].identityPk == r.devices[d].identityPk
  {
    if listed != [] {
      ReconcileKeepsKeys(r, listed[..|listed| - 1], d);
    }
  }

  predicate KeepsKey(r: Roster, q: Roster, d: DeviceId)
    requires d in r.devices
  {
    d in q.devices && q.devices[d].identityPk == r.devices[d].identityPk
  }

  lemma RemoveKeepsKey(c: Platform, r: Roster, step: Step, d: DeviceId)
    requires d in r.devices && (step.DoRemoveOwn? || step.DoReceiveRemove?)
    ensures KeepsKey(r, Next(c, r, step).0, d)
  {
    if step.DoRemoveOwn? {
      RemoveOwnKeepsKey(c, r, step.subject, step.reason, step.removedAt, step.now, d);
    }
  }

  lemma RemoveOwnKeepsKey(
    c: Platform, r: Roster, subject: DeviceId, reason: RemovalReason, removedAt: string, now: int, d: DeviceId)
    requires d in r.devices
    ensures KeepsKey(r, RemoveOwn(c, r, subject, reason, removedAt, now).0, d)
  {
  }

  lemma IntroduceKeepsKey(c: Platform, r: Roster, m: Introduce, introducer: DeviceId, now: int, d: DeviceId)
    requires Inv(r) && d in r.devices
    ensures KeepsKey(r, ReceiveIntroduce(c, r, m, introducer, now).0, d)
  {
    if VouchRule(c, r, m, introducer).None? && !IsActive(r, m.subject.deviceId) {
      PassedRuleKeepsKey(c, r, m, introducer, d);
    }
  }

  lemma PassedRuleKeepsKey(c: Platform, r: Roster, m: Introduce, introducer: DeviceId, d: DeviceId)
    requires d in r.devices && VouchRule(c, r, m, introducer).None?
    ensures forall log :: KeepsKey(r, Admit(r.(churn := log), m.subject, introducer), d)
  {
  }

  /** No step forgets a record. Its identity key changes exactly when the user approves a held vouch that names
      another key than the one on record, while the vouch's introducer is active: approval does not look at the
      key again. */
  lemma KeyChangesExactlyWhen(c: Platform, r: Roster, step: Step, d: DeviceId)
    requires Inv(r) && d in r.devices
    ensures var q := Next(c, r, step).0;
            && d in q.devices
            && (q.devices[d].identityPk != r.devices[d].identityPk <==>
                step == DoApprove(d) && d in r.held && IsActive(r, r.held[d].introducer)
                && r.held[d].message.subject.identityPk != r.devices[d].identityPk)
  {
    if step.DoApprove? {
      ApprovalChangesKey(r, step.subject, d);
    } else {
      OtherStepsKeepKey(c, r, step, d);
    }
  }

  lemma OtherStepsKeepKey(c: Platform, r: Roster, step: Step, d: DeviceId)
    requires Inv(r) && d in r.devices && !step.DoApprove?
    ensures KeepsKey(r, Next(c, r, step).0, d)
  {
    match step
    case DoIntroduce(m, introducer, now) => IntroduceKeepsKey(c, r, m, introducer, now, d);
    case DoRemoveOwn(_, _, _, _) => RemoveKeepsKey(c, r, step, d);
    case DoReceiveRemove(_, _, _) => RemoveKeepsKey(c, r, step, d);
    case DoSync(m, sender) => MergeKeepsKeys(r, m.devices, m.epoch, sender, d);
    case DoReconcile(listed) => ReconcileKeepsKeys(r, listed, d);
    case DoDeny(_) =>
    case DoLabels(_, _, _, _) =>
  }

  lemma ApprovalChangesKey(r: Roster, subject: DeviceId, d: DeviceId)
    requires Inv(r) && d in r.devices
    ensures var q := ApproveHeld(r, subject).0;
            && d in q.devices
            && (q.devices[d].identityPk != r.devices[d].identityPk <==>
                subject == d && d in r.held && IsActive(r, r.held[d].introducer)
                && r.held[d].message.subject.identityPk != r.devices[d].identityPk)
  {
  }

  // ---- the size cap ----

  lemma {:induction false} SubsetSize(a: set<DeviceId>, b: set<DeviceId>)
    requires a <= b
    ensures |a| <= |b|
  {
    if a != {} {
      var x :| x in a;
      SubsetSize(a - {x}, b - {x});
    }
  }

  lemma AdmitCount(r: Roster, q: Roster, d: DeviceId)
    requires IsActive(q, d) && !IsActive(r, d)
    requires forall x :: x != d ==> (IsActive(q, x) <==> IsActive(r, x))
    ensures ActiveCount(q) == ActiveCount(r) + 1
  {
    assert ActiveSet(q) == ActiveSet(r) + {d};
  }

  lemma LeaveCount(r: Roster, q: Roster)
    requires OnlyLeaves(r, q)
    ensures ActiveCount(q) <= ActiveCount(r)
  {
    SubsetSize(ActiveSet(q), ActiveSet(r));
  }

  /** The cap is broken exactly by approving a held vouch for a device that is not active when twenty already
      are: approval does not look at the cap again. */
  lemma CapBrokenExactlyWhen(c: Platform, r: Roster, step: Step)
    requires Inv(r) && ActiveCount(r) <= MAX_ACTIVE_DEVICES
    ensures ActiveCount(Next(c, r, step).0) > MAX_ACTIVE_DEVICES <==>
            && step.DoApprove? && step.subject in r.held && IsActive(r, r.held[step.subject].introducer)
            && !IsActive(r, step.subject) && ActiveCount(r) == MAX_ACTIVE_DEVICES
  {
    var q := Next(c, r, step).0;
    if d :| IsActive(q, d) && !IsActive(r, d) {
      OnlyVouchesLetIn(c, r, step, d);
      AdmitCount(r, q, d);
    } else {
      LeaveCount(r, q);
      if step.DoApprove? && step.subject in r.held && IsActive(r, r.held[step.subject].introducer) {
        assert IsActive(q, step.subject);
      }
    }
  }

  /** Approvals below the cap. */
  predicate ApprovesBelowCap(c: Platform, start: Roster, steps: seq<Step>) {
    forall n :: 0 <= n < |steps| && steps[n].DoApprove? ==> ActiveCount(At(c, start, steps, n)) < MAX_ACTIVE_DEVICES
  }

  /** On every run that approves held vouches only below the cap, a family never exceeds twenty devices. */
  lemma {:induction false} CapHolds(c: Platform, start: Roster, steps: seq<Step>)
    requires Inv(start) && ActiveCount(start) <= MAX_ACTIVE_DEVICES && ApprovesBelowCap(c, start, steps)
    ensures ActiveCount(Run(c, start, steps)) <= MAX_ACTIVE_DEVICES
  {
    if steps != [] {
      var n := |steps| - 1;
      var front := steps[..n];
      BelowCapFront(c, start, steps);
      CapHolds(c, start, front);
      ReachableInv(c, start, front);
      CapBrokenExactlyWhen(c, Run(c, start, front), steps[n]);
    }
  }

  lemma BelowCapFront(c: Platform, start: Roster, steps: seq<Step>)
    requires steps != [] && ApprovesBelowCap(c, start, steps)
    ensures var n := |steps| - 1;
            && ApprovesBelowCap(c, start, steps[..n])
            && (steps[n].DoApprove? ==> ActiveCount(Run(c, start, steps[..n])) < MAX_ACTIVE_DEVICES)
  {
    var n := |steps| - 1;
    var front := steps[..n];
    forall k | 0 <= k < n && front[k].DoApprove? ensures ActiveCount(At(c, start, front, k)) < MAX_ACTIVE_DEVICES {
      assert front[..k] == steps[..k];
      assert steps[k].DoApprove?;
    }
    assert steps[n].DoApprove? ==> ActiveCount(At(c, start, steps, n)) < MAX_ACTIVE_DEVICES;
  }
}
