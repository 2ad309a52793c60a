/** What every step keeps of a roster, and what every step must show its user. */
module RosterInvariants {
  import opened Wrappers
  import opened StringOrder
  import opened RosterModel
  import Churn

  // ---- the invariant ----

  /** Records, tombstones and held vouches are filed under the id they carry. */
  ghost predicate Keyed(r: Roster) {
    && (forall d :: d in r.devices ==> r.devices[d].deviceId == d)
    && (forall d :: d in r.tombstones ==> r.tombstones[d].subject == d)
    && (forall d :: d in r.held ==> r.held[d].message.subject.deviceId == d)
  }

  /** Tombstones win: nothing tombstoned is active or waiting to be admitted; no tombstone is ahead of the
      roster's epoch; and only this device itself ever tombstones this device. */
  ghost predicate Inv(r: Roster) {
    && Keyed(r)
    && (forall d :: d in r.tombstones ==> !IsActive(r, d) && d !in r.held)
    && (forall d :: d in r.tombstones ==> r.tombstones[d].epoch <= r.epoch)
    && (r.selfId in r.tombstones ==> r.tombstones[r.selfId].removedBy == r.selfId)
  }

  /** Nothing is ever un-removed, and the epoch never goes back. */
  ghost predicate Grows(r: Roster, q: Roster) {
    q.selfId == r.selfId && r.tombstones.Keys <= q.tombstones.Keys && r.epoch <= q.epoch
  }

  // ---- transparency ----

  predicate ShowsJoin(ledger: seq<LedgerEntry>, d: DeviceId) {
    exists i :: 0 <= i < |ledger| && ledger[i].peer == d && ledger[i].event.DeviceJoined?
  }

  predicate ShowsRemoval(ledger: seq<LedgerEntry>, d: DeviceId) {
    exists i :: 0 <= i < |ledger| && ledger[i].peer == d && ledger[i].event.DeviceRemoved?
  }

  predicate ShowsSplit(ledger: seq<LedgerEntry>, d: DeviceId) {
    exists i :: 0 <= i < |ledger| && ledger[i] == LedgerEntry(d, FamilySplit(d))
  }

  /** Whoever joins, leaves or splits off in a step is named in that step's ledger; a split never heals. */
  ghost predicate Transparent(r: Roster, q: Roster, ledger: seq<LedgerEntry>) {
    && (forall d :: IsActive(q, d) && !IsActive(r, d) ==> ShowsJoin(ledger, d))
    && (forall d :: IsActive(r, d) && !IsActive(q, d) ==> ShowsRemoval(ledger, d))
    && (forall d :: d in Splits(q) && d !in Splits(r) ==> ShowsSplit(ledger, d))
    && Splits(r) <= Splits(q)
  }

  lemma ShowsMore(a: seq<LedgerEntry>, b: seq<LedgerEntry>, d: DeviceId)
    ensures ShowsJoin(a, d) || ShowsJoin(b, d) ==> ShowsJoin(a + b, d)
    ensures ShowsRemoval(a, d) || ShowsRemoval(b, d) ==> ShowsRemoval(a + b, d)
    ensures ShowsSplit(a, d) || ShowsSplit(b, d) ==> ShowsSplit(a + b, d)
  {
    var c := a + b;
    assert forall i :: 0 <= i < |a| ==> c[i] == a[i];
    assert forall i :: 0 <= i < |b| ==> c[|a| + i] == b[i];
  }

  lemma TransparentComposes(r: Roster, q: Roster, s: Roster, a: seq<LedgerEntry>, b: seq<LedgerEntry>)
    requires Transparent(r, q, a) && Transparent(q, s, b)
    ensures Transparent(r, s, a + b)
  {
    forall d | IsActive(s, d) && !IsActive(r, d) ensures ShowsJoin(a + b, d) {
      ShowsMore(a, b, d);
    }
    forall d | IsActive(r, d) && !IsActive(s, d) ensures ShowsRemoval(a + b, d) {
      ShowsMore(a, b, d);
    }
    forall d | d in Splits(s) && d !in Splits(r) ensures ShowsSplit(a + b, d) {
      ShowsMore(a, b, d);
    }
  }

  /** All that one step must keep and show. */
  ghost predicate Sound(r: Roster, q: Roster, ledger: seq<LedgerEntry>) {
    Inv(q) && Grows(r, q) && Transparent(r, q, ledger)
  }

  lemma SoundComposes(r: Roster, q: Roster, s: Roster, a: seq<LedgerEntry>, b: seq<LedgerEntry>)
    requires Sound(r, q, a) && Sound(q, s, b)
    ensures Sound(r, s, a + b)
  {
    TransparentComposes(r, q, s, a, b);
  }

  // ---- burying and admitting ----

  lemma BuriedSound(r: Roster, t: Tombstone)
    requires Inv(r) && (t.subject == r.selfId ==> t.removedBy == r.selfId)
    ensures Sound(r, Buried(r, t), BuriedLedger(r, t))
  {
    var q, ledger := Buried(r, t), BuriedLedger(r, t);
    assert ledger[0].peer == t.subject && ledger[0].event.DeviceRemoved?;
    assert t.subject in Splits(q) ==> ledger[2] == LedgerEntry(t.subject, FamilySplit(t.subject));
  }

  /** A burial shows a split exactly when the one buried has evicted this device before. */
  lemma BurialSplitsExactlyWhen(r: Roster, t: Tombstone)
    ensures forall d :: ShowsSplit(BuriedLedger(r, t), d) <==> d == t.subject && d in r.removedMe
  {
    var q, ledger := Buried(r, t), BuriedLedger(r, t);
    if t.subject in Splits(q) {
      assert ledger[2] == LedgerEntry(t.subject, FamilySplit(t.subject));
    }
  }

  /** A change of the churn log alone is no one's concern. */
  lemma ChurnIrrelevant(r: Roster, q: Roster, s: Roster, ledger: seq<LedgerEntry>)
    requires q == r.(churn := q.churn) && Sound(q, s, ledger)
    ensures Sound(r, s, ledger)
  {
  }

  lemma CountedBurialSound(r: Roster, churn: Churn.Log, t: Tombstone)
    requires Inv(r) && (t.subject == r.selfId ==> t.removedBy == r.selfId)
    ensures Sound(r, Buried(r.(churn := churn), t), BuriedLedger(r, t))
  {
    var counted := r.(churn := churn);
    BuriedSound(counted, t);
    ChurnIrrelevant(r, counted, Buried(counted, t), BuriedLedger(r, t));
  }

  lemma CountedSound(r: Roster, churn: Churn.Log)
    requires Inv(r)
    ensures Sound(r, r.(churn := churn), [])
  {
  }

  lemma RefusalSound(r: Roster, m: Remove, refusal: RemovalRefusal)
    requires Inv(r)
    ensures Sound(r, RefuseRemoval(r, m, refusal).0, RefuseRemoval(r, m, refusal).1.ledger)
  {
    NothingSound(r, [LedgerEntry(m.subject, VouchRejected)]);
  }

  lemma AdmitSound(r: Roster, s: Subject, introducer: DeviceId, before: seq<LedgerEntry>)
    requires Inv(r) && s.deviceId !in r.tombstones
    ensures Sound(r, Admit(r, s, introducer), before + JoinedLedger(s, introducer))
  {
    var ledger := before + JoinedLedger(s, introducer);
    assert ledger[|before|].peer == s.deviceId && ledger[|before|].event.DeviceJoined?;
  }

  // ---- steps ----

  lemma IntroduceSound(c: Platform, r: Roster, m: Introduce, introducer: DeviceId, now: int)
    requires Inv(r)
    ensures var (q, a) := ReceiveIntroduce(c, r, m, introducer, now); Sound(r, q, a.ledger)
  {
    var s := m.subject.deviceId;
    var rule := VouchRule(c, r, m, introducer);
    if rule.Some? {
      NothingSound(r, [LedgerEntry(s, VouchRejected)]);
    } else if IsActive(r, s) {
      NothingSound(r, []);
    } else if Churn.WouldExceed(r.churn, introducer, now) {
      var n := Churn.CountInWindow(r.churn, introducer, now);
      HoldSound(r, Held(m, introducer, n), [LedgerEntry(s, AdmissionHeld(n))]);
    } else {
      CountedAdmitSound(r, Churn.Recorded(r.churn, introducer, TimestampOr(c, m.subject.joinedAt, now), now),
                        m.subject, introducer);
    }
  }

  lemma HoldSound(r: Roster, h: Held, ledger: seq<LedgerEntry>)
    requires Inv(r) && h.message.subject.deviceId !in r.tombstones
    ensures Sound(r, r.(held := r.held[h.message.subject.deviceId := h]), ledger)
  {
  }

  lemma CountedAdmitSound(r: Roster, churn: Churn.Log, s: Subject, introducer: DeviceId)
    requires Inv(r) && s.deviceId !in r.tombstones
    ensures Sound(r, Admit(r.(churn := churn), s, introducer), JoinedLedger(s, introducer))
  {
    var counted := r.(churn := churn);
    AdmitSound(counted, s, introducer, []);
    assert [] + JoinedLedger(s, introducer) == JoinedLedger(s, introducer);
    ChurnIrrelevant(r, counted, Admit(counted, s, introducer), JoinedLedger(s, introducer));
  }

  lemma UnheldSound(r: Roster, subject: DeviceId, ledger: seq<LedgerEntry>)
    requires Inv(r)
    ensures Sound(r, r.(held := r.held - {subject}), ledger)
  {
  }

  lemma ApproveSound(r: Roster, subject: DeviceId)
    requires Inv(r)
    ensures var (q, a) := ApproveHeld(r, subject); Sound(r, q, a.ledger)
  {
    if subject in r.held {
      var h := r.held[subject];
      var q := r.(held := r.held - {subject});
      UnheldSound(r, subject, [LedgerEntry(subject, AdmissionResolved(false)), LedgerEntry(subject, VouchRejected)]);
      if IsActive(r, h.introducer) {
        AdmitSound(q, h.message.subject, h.introducer, [LedgerEntry(subject, AdmissionResolved(true))]);
      }
    }
  }

  lemma RemoveOwnSound(c: Platform, r: Roster, subject: DeviceId, reason: RemovalReason, removedAt: string, now: int)
    requires Inv(r)
    ensures var (q, a) := RemoveOwn(c, r, subject, reason, removedAt, now);
            Sound(r, q, if a.Ok? then a.value else [])
  {
    if IsActive(r, r.selfId) {
      var churn := if subject == r.selfId then r.churn
                   else Churn.Recorded(r.churn, r.selfId, TimestampOr(c, removedAt, now), now);
      CountedBurialSound(r, churn, Tombstone(subject, reason, removedAt, r.selfId, r.epoch + 1));
    }
  }

  lemma RemovalOfSelfSound(c: Platform, r: Roster, m: Remove, remover: DeviceId)
    requires Inv(r)
    ensures var (q, a) := ReceiveRemovalOfSelf(c, r, m, remover); Sound(r, q, a.ledger)
  {
    var (q, a) := ReceiveRemovalOfSelf(c, r, m, remover);
    assert a.outcome.AboutSelf? && remover in Splits(q) ==> a.ledger[1] == LedgerEntry(remover, FamilySplit(remover));
  }

  /** An eviction of this device shows a split exactly when its signer has been buried here before. */
  lemma EvictionSplitsExactlyWhen(c: Platform, r: Roster, m: Remove, remover: DeviceId)
    requires ReceiveRemovalOfSelf(c, r, m, remover).1.outcome.AboutSelf?
    ensures forall d :: ShowsSplit(ReceiveRemovalOfSelf(c, r, m, remover).1.ledger, d) <==>
              d == remover && d in r.tombstones
  {
    var ledger := ReceiveRemovalOfSelf(c, r, m, remover).1.ledger;
    if remover in r.tombstones {
      assert ledger[1] == LedgerEntry(remover, FamilySplit(remover));
    }
  }

  lemma ReceiveRemoveSound(c: Platform, r: Roster, m: Remove, remover: DeviceId, now: int)
    requires Inv(r)
    ensures var (q, a) := ReceiveRemove(c, r, m, remover, now); Sound(r, q, a.ledger)
  {
    if m.subject == r.selfId {
      RemovalOfSelfSound(c, r, m, remover);
    } else {
      var churn := ChurnOfRemoval(c, r.churn, m, remover, now);
      CountedBurialSound(r, churn, TombstoneOf(m, remover));
      CountedSound(r, churn);
      RefusalSound(r, m, BadRemovalSignature);
    }
  }

  lemma SelfReportedSound(r: Roster, sender: DeviceId)
    requires Inv(r)
    ensures var q := r.(removedMe := r.removedMe + {sender}); Sound(r, q, SplitLedger(q, sender))
  {
    var q := r.(removedMe := r.removedMe + {sender});
    assert sender in Splits(q) ==> SplitLedger(q, sender)[0] == LedgerEntry(sender, FamilySplit(sender));
  }

  lemma NothingSound(r: Roster, ledger: seq<LedgerEntry>)
    requires Inv(r)
    ensures Sound(r, r, ledger)
  {
  }

  lemma MergeOneSound(r: Roster, g: Merge, reported: SyncDevice, epoch: nat, sender: DeviceId)
    requires Sound(r, g.r, g.ledger)
    ensures Sound(r, MergeOne(g, reported, epoch, sender).r, MergeOne(g, reported, epoch, sender).ledger)
  {
    var d := reported.deviceId;
    if d !in g.r.devices {
      NothingSound(g.r, [LedgerEntry(d, VouchRejected)]);
      SoundComposes(r, g.r, g.r, g.ledger, [LedgerEntry(d, VouchRejected)]);
    } else if reported.state == Removed {
      if d == g.r.selfId {
        SelfReportedSound(g.r, sender);
        var q := g.r.(removedMe := g.r.removedMe + {sender});
        SoundComposes(r, g.r, q, g.ledger, SplitLedger(q, sender));
      } else {
        var t := SyncTombstone(d, sender, Max(g.r.epoch, epoch));
        BuriedSound(g.r, t);
        SoundComposes(r, g.r, Buried(g.r, t), g.ledger, BuriedLedger(g.r, t));
      }
    }
  }

  lemma {:induction false} MergeAllSound(r: Roster, reported: seq<SyncDevice>, epoch: nat, sender: DeviceId)
    requires Inv(r)
    ensures Sound(r, MergeAll(r, reported, epoch, sender).r, MergeAll(r, reported, epoch, sender).ledger)
  {
    if reported == [] {
      NothingSound(r, []);
    } else {
      var n := |reported| - 1;
      MergeAllSound(r, reported[..n], epoch, sender);
      MergeOneSound(r, MergeAll(r, reported[..n], epoch, sender), reported[n], epoch, sender);
    }
  }

  lemma RaiseSound(r: Roster, epoch: nat, ledger: seq<LedgerEntry>)
    requires Inv(r) && r.epoch <= epoch
    ensures Sound(r, r.(epoch := epoch), ledger)
  {
  }

  lemma SyncSound(c: Platform, r: Roster, m: SyncMessage, sender: DeviceId)
    requires Inv(r)
    ensures var (q, a) := ReceiveSync(c, r, m, sender); Sound(r, q, a.ledger)
  {
    MergeAllSound(r, m.devices, m.epoch, sender);
    NothingSound(r, []);
    var g := MergeAll(r, m.devices, m.epoch, sender);
    if m.epoch > g.r.epoch {
      RaiseSound(g.r, m.epoch, [LedgerEntry(sender, EpochBumped(m.epoch))]);
      SoundComposes(r, g.r, g.r.(epoch := m.epoch), g.ledger, [LedgerEntry(sender, EpochBumped(m.epoch))]);
    }
  }

  lemma LabelsSound(r: Roster, d: DeviceId, name: Option<string>, group: Option<string>, role: Option<string>)
    requires Inv(r)
    ensures var (q, a) := UpdateLabels(r, d, name, group, role); Sound(r, q, a.ledger)
  {
  }

  lemma DeactivatedSound(r: Roster, d: DeviceId, ledger: seq<LedgerEntry>)
    requires Inv(r) && ledger == [LedgerEntry(d, DeviceRemoved("server", RemovedByMember))]
    ensures Sound(r, r.(devices := Deactivated(r.devices, d)), ledger)
  {
    assert ledger[0].peer == d;
  }

  lemma ReconcileOneSound(r: Roster, g: Reconciliation, listed: ServerDevice)
    requires Sound(r, g.r, g.ledger)
    ensures Sound(r, ReconcileOne(g, listed).r, ReconcileOne(g, listed).ledger)
  {
    var d := listed.deviceId;
    if d !in g.r.devices {
      NothingSound(g.r, [LedgerEntry(d, UnvouchedDeviceListed)]);
      SoundComposes(r, g.r, g.r, g.ledger, [LedgerEntry(d, UnvouchedDeviceListed)]);
    } else if IsActive(g.r, d) && listed.revoked {
      var more := [LedgerEntry(d, DeviceRemoved("server", RemovedByMember))];
      DeactivatedSound(g.r, d, more);
      SoundComposes(r, g.r, g.r.(devices := Deactivated(g.r.devices, d)), g.ledger, more);
    }
  }

  lemma {:induction false} ReconcileAllSound(r: Roster, listed: seq<ServerDevice>)
    requires Inv(r)
    ensures Sound(r, ReconcileAll(r, listed).r, ReconcileAll(r, listed).ledger)
  {
    if listed == [] {
      NothingSound(r, []);
    } else {
      ReconcileAllSound(r, listed[..|listed| - 1]);
      ReconcileOneSound(r, ReconcileAll(r, listed[..|listed| - 1]), listed[|listed| - 1]);
    }
  }

  /** Every step keeps the invariant, forgets no tombstone, lowers no epoch, and names in its ledger every
      device that joins, leaves, or turns out to be on the other side of a split. */
  lemma StepSound(c: Platform, r: Roster, step: Step)
    requires Inv(r)
    ensures Sound(r, Next(c, r, step).0, Next(c, r, step).1)
  {
    match step
    case DoIntroduce(m, introducer, now) => IntroduceSound(c, r, m, introducer, now);
    case DoApprove(subject) => ApproveSound(r, subject);
    case DoDeny(subject) => UnheldSound(r, subject, DenyHeld(r, subject).1.ledger); NothingSound(r, []);
    case DoRemoveOwn(subject, reason, removedAt, now) => RemoveOwnSound(c, r, subject, reason, removedAt, now);
    case DoReceiveRemove(m, remover, now) => ReceiveRemoveSound(c, r, m, remover, now);
    case DoSync(m, sender) => SyncSound(c, r, m, sender);
    case DoLabels(d, name, group, role) => LabelsSound(r, d, name, group, role);
    case DoReconcile(listed) => ReconcileAllSound(r, listed);
  }

  // ---- runs ----

  lemma FoundInv(me: Subject)
    ensures Inv(Found(me))
  {
  }

  lemma {:induction false} ReachableInv(c: Platform, start: Roster, steps: seq<Step>)
    requires Inv(start)
    ensures Inv(Run(c, start, steps)) && Grows(start, Run(c, start, steps))
  {
    if steps != [] {
      ReachableInv(c, start, steps[..|steps| - 1]);
      StepSound(c, Run(c, start, steps[..|steps| - 1]), steps[|steps| - 1]);
    }
  }

  /** The second check of the tombstone when a held vouch is approved never fires: burying a device
      already discards its held vouch. */
  lemma ApprovalNeverMeetsTombstone(c: Platform, me: Subject, steps: seq<Step>, subject: DeviceId)
    ensures var a := ApproveHeld(Run(c, Found(me), steps), subject).1;
            a.outcome != Some(RefusedVouch(SubjectTombstoned(subject)))
  {
    FoundInv(me);
    ReachableInv(c, Found(me), steps);
  }
}
