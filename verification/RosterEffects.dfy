/** What each step makes of a roster, what it answers and what it writes down: over the fields. */
module RosterEffects {
  import opened Wrappers
  import opened StringOrder
  import opened RosterModel
  import Churn

  // ---- what stays ----

  /** Apart from one device, and from the epoch and the churn log, the roster is as it was. */
  predicate SameElsewhere(r: Roster, q: Roster, d: DeviceId) {
    && q.selfId == r.selfId && q.removedMe == r.removedMe
    && q.devices - {d} == r.devices - {d} && q.tombstones - {d} == r.tombstones - {d} && q.held - {d} == r.held - {d}
  }

  predicate SameRecords(r: Roster, q: Roster) {
    && q.selfId == r.selfId && q.removedMe == r.removedMe && q.epoch == r.epoch
    && q.devices == r.devices && q.tombstones == r.tombstones
  }

  // ---- leaving ----

  /** The device is buried for this reason, at this time, by this device, under this epoch: inactive, not waiting, and
      everything else as it was. */
  predicate Leaves(
    r: Roster, q: Roster, d: DeviceId, reason: RemovalReason, removedAt: string, signer: DeviceId, epoch: nat)
  {
    && SameElsewhere(r, q, d)
    && d in q.tombstones && q.tombstones[d].subject == d && q.tombstones[d].reason == reason
    && q.tombstones[d].removedAt == removedAt && q.tombstones[d].removedBy == signer && q.tombstones[d].epoch == epoch
    && (d in q.devices <==> d in r.devices)
    && (d in r.devices ==> q.devices[d] == r.devices[d].(state := Removed))
    && d !in q.held && d !in q.churn
  }

  /** The ledger names the removal, its signer and reason, and the epoch reached. */
  predicate LeavingShown(ledger: seq<LedgerEntry>, d: DeviceId, reason: RemovalReason, signer: DeviceId, epoch: nat) {
    && |ledger| >= 2
    && ledger[0] == LedgerEntry(d, DeviceRemoved(signer, reason))
    && ledger[1] == LedgerEntry(d, EpochBumped(epoch))
    && forall i :: 2 <= i < |ledger| ==> ledger[i] == LedgerEntry(d, FamilySplit(d))
  }

  /** A removal by this device. An active one's raises the epoch by one and is filed under the epoch it reaches; an
      inactive one's is refused and changes nothing. */
  lemma RemoveOwnEffect(
    c: Platform, r: Roster, subject: DeviceId, reason: RemovalReason, removedAt: string, now: int)
    ensures var (q, a) := RemoveOwn(c, r, subject, reason, removedAt, now);
            if IsActive(r, r.selfId)
            then && a.Ok? && q.epoch == r.epoch + 1
                 && Leaves(r, q, subject, reason, removedAt, r.selfId, r.epoch + 1)
                 && LeavingShown(a.value, subject, reason, r.selfId, r.epoch + 1)
            else a == Err(RemoverNotActive(r.selfId)) && q == r
  {
    if IsActive(r, r.selfId) {
      var q := RemoveOwn(c, r, subject, reason, removedAt, now).0;
      assert q.devices - {subject} == r.devices - {subject};
      assert q.tombstones - {subject} == r.tombstones - {subject};
      assert q.held - {subject} == r.held - {subject};
    }
  }

  /** The signer is an active member, and the signature is good under its recorded key. */
  predicate Signed(c: Platform, r: Roster, m: Remove, remover: DeviceId) {
    && remover in r.devices && r.devices[remover].state == Active && c.usable(r.devices[remover].identityPk)
    && c.removalVerifies(r.devices[remover].identityPk, m)
  }

  /** A removal of another device, received. A good one is applied as it says, or only counted if the device is buried
      already; a bad one changes nothing. */
  lemma ReceiveRemoveEffect(c: Platform, r: Roster, m: Remove, remover: DeviceId, now: int)
    requires m.subject != r.selfId
    ensures var (q, a) := ReceiveRemove(c, r, m, remover, now);
            if !Signed(c, r, m, remover)
            then && q == r
                 && a.outcome == RefusedRemoval(if IsActive(r, remover) then BadRemovalSignature
                                                else RemovalRefusal.RemoverNotActive(remover))
                 && a.ledger == [LedgerEntry(m.subject, VouchRejected)]
            else if m.subject in r.tombstones
            then a.outcome == AlreadyRemoved && a.ledger == [] && q.held == r.held && SameRecords(r, q)
            else && a.outcome == RemovalApplied && q.epoch == Max(r.epoch, m.epoch)
                 && Leaves(r, q, m.subject, m.reason, m.removedAt, remover, m.epoch)
                 && LeavingShown(a.ledger, m.subject, m.reason, remover, Max(r.epoch, m.epoch))
  {
    if Signed(c, r, m, remover) && m.subject !in r.tombstones {
      AppliedLeaves(c, r, m, remover, now);
    }
  }

  lemma AppliedLeaves(c: Platform, r: Roster, m: Remove, remover: DeviceId, now: int)
    requires m.subject != r.selfId && Signed(c, r, m, remover) && m.subject !in r.tombstones
    ensures var (q, a) := ReceiveRemove(c, r, m, remover, now);
            && a.outcome == RemovalApplied && q.epoch == Max(r.epoch, m.epoch)
            && Leaves(r, q, m.subject, m.reason, m.removedAt, remover, m.epoch)
            && LeavingShown(a.ledger, m.subject, m.reason, remover, Max(r.epoch, m.epoch))
  {
    var q := ReceiveRemove(c, r, m, remover, now).0;
    assert q.devices - {m.subject} == r.devices - {m.subject};
    assert q.tombstones - {m.subject} == r.tombstones - {m.subject};
    assert q.held - {m.subject} == r.held - {m.subject};
  }

  /** Word of this device's own removal, from any signer with a record, active or not: noted, with the epoch, and no one
      is buried; a bad one changes nothing. */
  lemma OwnRemovalEffect(c: Platform, r: Roster, m: Remove, remover: DeviceId, now: int)
    requires m.subject == r.selfId
    ensures var (q, a) := ReceiveRemove(c, r, m, remover, now);
            var known := remover in r.devices && c.usable(r.devices[remover].identityPk);
            if known && c.removalVerifies(r.devices[remover].identityPk, m)
            then && a.outcome == AboutSelf && q.removedMe == r.removedMe + {remover} && q.epoch == Max(r.epoch, m.epoch)
                 && q.devices == r.devices && q.tombstones == r.tombstones && q.held == r.held && q.churn == r.churn
                 && a.ledger != [] && a.ledger[0] == LedgerEntry(remover, DeviceRemoved(remover, m.reason))
            else && q == r && a.ledger == [LedgerEntry(m.subject, VouchRejected)]
                 && a.outcome
                    == RefusedRemoval(if known then BadRemovalSignature else RemovalRefusal.RemoverNotActive(remover))
  {
  }

  // ---- joining ----

  /** The record of a newcomer: what the vouch says of it, and who vouched. */
  predicate FiledFrom(rec: DeviceRecord, s: Subject, introducer: DeviceId) {
    && rec.deviceId == s.deviceId && rec.identityPk == s.identityPk && rec.displayName == s.displayName
    && rec.memberGroup == s.memberGroup && rec.role == s.role && rec.joinedAt == s.joinedAt
    && rec.introducedBy == introducer && rec.state == Active
  }

  /** The subject is an active member under this vouch, and nothing else has changed but the churn log. */
  predicate Joins(r: Roster, q: Roster, s: Subject, introducer: DeviceId) {
    && SameElsewhere(r, q, s.deviceId) && q.epoch == r.epoch && q.tombstones == r.tombstones
    && s.deviceId in q.devices && FiledFrom(q.devices[s.deviceId], s, introducer)
  }

  /** A founder is alone in its family: active, its own introducer, at epoch zero, with nothing buried, held or counted. */
  lemma FoundEffect(me: Subject)
    ensures var r := Found(me);
            && r.selfId == me.deviceId && r.devices.Keys == {me.deviceId}
            && FiledFrom(r.devices[me.deviceId], me, me.deviceId)
            && r.epoch == 0 && r.tombstones == map[] && r.held == map[] && r.removedMe == {} && r.churn == map[]
  {
  }

  /** The rules a vouch must pass, in the order they are applied. */
  datatype VouchTest =
    | VoucherActive | NotBuried | NotForItself | KeyUnchanged | RoomLeft | VoucherKeyUsable | SignatureGood | KeyUsable

  predicate Passes(c: Platform, r: Roster, m: Introduce, introducer: DeviceId, t: VouchTest) {
    var s := m.subject.deviceId;
    var voucher := if introducer in r.devices then r.devices[introducer].identityPk else "";
    match t
    case VoucherActive => introducer in r.devices && r.devices[introducer].state == Active
    case NotBuried => s !in r.tombstones
    case NotForItself => s != introducer
    case KeyUnchanged => s in r.devices ==> r.devices[s].identityPk == m.subject.identityPk
    case RoomLeft => (s in r.devices && r.devices[s].state == Active) || |ActiveSet(r)| < 20
    case VoucherKeyUsable => c.usable(voucher)
    case SignatureGood => c.vouchVerifies(voucher, m)
    case KeyUsable => c.usable(m.subject.identityPk)
  }

  const TESTS: seq<VouchTest> :=
    [VoucherActive, NotBuried, NotForItself, KeyUnchanged, RoomLeft, VoucherKeyUsable, SignatureGood, KeyUsable]

  function RefusalFor(r: Roster, m: Introduce, introducer: DeviceId, t: VouchTest): VouchRefusal {
    match t
    case VoucherActive => IntroducerNotActive(introducer)
    case NotBuried => SubjectTombstoned(m.subject.deviceId)
    case NotForItself => SelfVouch(m.subject.deviceId)
    case KeyUnchanged => IdentityChanged(m.subject.deviceId)
    case RoomLeft => SizeCapReached(|ActiveSet(r)|)
    case VoucherKeyUsable => MalformedIdentityKey
    case SignatureGood => BadSignature
    case KeyUsable => MalformedIdentityKey
  }

  /** The first test a vouch fails gives the refusal; and there is none exactly if it passes them all. */
  ghost predicate FirstFailed(c: Platform, r: Roster, m: Introduce, introducer: DeviceId, k: nat) {
    k < |TESTS| && !Passes(c, r, m, introducer, TESTS[k]) && forall i :: 0 <= i < k ==> Passes(c, r, m, introducer, TESTS[i])
  }

  ghost predicate PassesAll(c: Platform, r: Roster, m: Introduce, introducer: DeviceId) {
    forall t :: Passes(c, r, m, introducer, t)
  }

  lemma RuleIsFirstFailed(c: Platform, r: Roster, m: Introduce, introducer: DeviceId)
    ensures VouchRule(c, r, m, introducer).None? <==> PassesAll(c, r, m, introducer)
    ensures forall k: nat :: FirstFailed(c, r, m, introducer, k) ==>
              VouchRule(c, r, m, introducer) == Some(RefusalFor(r, m, introducer, TESTS[k]))
  {
    forall k: nat | FirstFailed(c, r, m, introducer, k)
      ensures VouchRule(c, r, m, introducer) == Some(RefusalFor(r, m, introducer, TESTS[k]))
    {
      RuleAt(c, r, m, introducer, k);
    }
    if VouchRule(c, r, m, introducer).None? {
      forall t ensures Passes(c, r, m, introducer, t) {
      }
    } else {
      var t := FailedTest(c, r, m, introducer);
    }
  }

  lemma FailedTest(c: Platform, r: Roster, m: Introduce, introducer: DeviceId) returns (t: VouchTest)
    requires VouchRule(c, r, m, introducer).Some?
    ensures !Passes(c, r, m, introducer, t)
  {
    t := if !Passes(c, r, m, introducer, VoucherActive) then VoucherActive
         else if !Passes(c, r, m, introducer, NotBuried) then NotBuried
         else if !Passes(c, r, m, introducer, NotForItself) then NotForItself
         else if !Passes(c, r, m, introducer, KeyUnchanged) then KeyUnchanged
         else if !Passes(c, r, m, introducer, RoomLeft) then RoomLeft
         else if !Passes(c, r, m, introducer, VoucherKeyUsable) then VoucherKeyUsable
         else if !Passes(c, r, m, introducer, SignatureGood) then SignatureGood
         else KeyUsable;
  }

  lemma RuleAt(c: Platform, r: Roster, m: Introduce, introducer: DeviceId, k: nat)
    requires FirstFailed(c, r, m, introducer, k)
    ensures VouchRule(c, r, m, introducer) == Some(RefusalFor(r, m, introducer, TESTS[k]))
  {
    assert k > 0 ==> Passes(c, r, m, introducer, TESTS[0]);
    assert k > 1 ==> Passes(c, r, m, introducer, TESTS[1]);
    assert k > 2 ==> Passes(c, r, m, introducer, TESTS[2]);
    assert k > 3 ==> Passes(c, r, m, introducer, TESTS[3]);
    assert k > 4 ==> Passes(c, r, m, introducer, TESTS[4]);
    assert k > 5 ==> Passes(c, r, m, introducer, TESTS[5]);
    assert k > 6 ==> Passes(c, r, m, introducer, TESTS[6]);
  }

  /** A vouch received. The first test it fails is the refusal, and nothing changes. Passed by a member already, it
      changes nothing. Passed by a newcomer, it is held, as it arrived, if its introducer has had five events in the last
      day, and otherwise lets the newcomer in. */
  lemma IntroduceEffect(c: Platform, r: Roster, m: Introduce, introducer: DeviceId, now: int)
    ensures var (q, a) := ReceiveIntroduce(c, r, m, introducer, now);
            var s, n := m.subject.deviceId, Churn.CountInWindow(r.churn, introducer, now);
            if !PassesAll(c, r, m, introducer)
            then && q == r && a.outcome.RefusedVouch? && a.ledger == [LedgerEntry(s, VouchRejected)]
                 && (forall k: nat :: FirstFailed(c, r, m, introducer, k) ==>
                       a.outcome.refusal == RefusalFor(r, m, introducer, TESTS[k]))
            else if s in r.devices && r.devices[s].state == Active
            then q == r && a.outcome == AlreadyKnown && a.ledger == []
            else if n >= 5
            then && SameRecords(r, q) && q.churn == r.churn && q.held - {s} == r.held - {s}
                 && s in q.held && q.held[s].message == m && q.held[s].introducer == introducer
                 && q.held[s].eventsInWindow == n
                 && a.outcome == HeldForUser(n) && a.ledger == [LedgerEntry(s, AdmissionHeld(n))]
            else && Joins(r, q, m.subject, introducer) && q.held == r.held
                 && a.outcome == Admitted && a.ledger == [LedgerEntry(s, DeviceJoined(introducer))]
  {
    RuleIsFirstFailed(c, r, m, introducer);
    if VouchRule(c, r, m, introducer).None? {
      PassedEffect(c, r, m, introducer, now);
    }
  }

  lemma PassedEffect(c: Platform, r: Roster, m: Introduce, introducer: DeviceId, now: int)
    requires VouchRule(c, r, m, introducer).None?
    ensures var (q, a) := ReceiveIntroduce(c, r, m, introducer, now);
            var s, n := m.subject.deviceId, Churn.CountInWindow(r.churn, introducer, now);
            if s in r.devices && r.devices[s].state == Active
            then q == r && a.outcome == AlreadyKnown && a.ledger == []
            else if n >= 5
            then && SameRecords(r, q) && q.churn == r.churn && q.held - {s} == r.held - {s}
                 && s in q.held && q.held[s].message == m && q.held[s].introducer == introducer
                 && q.held[s].eventsInWindow == n
                 && a.outcome == HeldForUser(n) && a.ledger == [LedgerEntry(s, AdmissionHeld(n))]
            else && Joins(r, q, m.subject, introducer) && q.held == r.held
                 && a.outcome == Admitted && a.ledger == [LedgerEntry(s, DeviceJoined(introducer))]
  {
    var q, s := ReceiveIntroduce(c, r, m, introducer, now).0, m.subject.deviceId;
    assert q.devices - {s} == r.devices - {s} && q.held - {s} == r.held - {s};
  }

  // ---- the quarantine ----

  /** Approving: a held vouch leaves the quarantine, and lets its subject in on what it says, if its introducer is active
      and the subject is not buried; for one that is not held nothing happens. */
  lemma ApproveEffect(r: Roster, d: DeviceId)
    ensures var (q, a) := ApproveHeld(r, d);
            if d !in r.held then q == r && a.outcome == None && a.ledger == []
            else
              var h := r.held[d];
              && d !in q.held && q.held == r.held - {d} && q.churn == r.churn
              && if h.introducer !in r.devices || r.devices[h.introducer].state == Removed
                 then && SameRecords(r, q) && a.outcome == Some(RefusedVouch(IntroducerNotActive(h.introducer)))
                      && a.ledger == [LedgerEntry(d, AdmissionResolved(false)), LedgerEntry(d, VouchRejected)]
                 else if d in r.tombstones
                 then && SameRecords(r, q) && a.outcome == Some(RefusedVouch(SubjectTombstoned(d)))
                      && a.ledger == [LedgerEntry(d, AdmissionResolved(false)), LedgerEntry(d, VouchRejected)]
                 else && a.outcome == Some(Admitted) && Joins(r.(held := q.held), q, h.message.subject, h.introducer)
                      && a.ledger == [LedgerEntry(d, AdmissionResolved(true)),
                                      LedgerEntry(h.message.subject.deviceId, DeviceJoined(h.introducer))]
  {
    if d in r.held {
      var q, s := ApproveHeld(r, d).0, r.held[d].message.subject.deviceId;
      assert q.devices - {s} == r.devices - {s};
    }
  }

  /** Denying: the vouch leaves the quarantine and nothing else changes. */
  lemma DenyEffect(r: Roster, d: DeviceId)
    ensures var (q, a) := DenyHeld(r, d);
            && d !in q.held && q.held == r.held - {d} && SameRecords(r, q) && q.churn == r.churn
            && (a.outcome <==> d in r.held)
            && a.ledger == if d in r.held then [LedgerEntry(d, AdmissionResolved(false))] else []
  {
  }

  // ---- labels ----

  predicate Relabels(wanted: Option<string>, before: string, after: string) {
    after == if wanted.Some? then wanted.value else before
  }

  /** Which labels a request changes, in the order they are written down. */
  function Changes(d: DeviceId, rec: DeviceRecord, name: Option<string>, group: Option<string>, role: Option<string>)
    : seq<LedgerEntry>
  {
    (if name in {None, Some(rec.displayName)} then [] else [LedgerEntry(d, LabelsChanged("display_name", name.value))])
    + (if group in {None, Some(rec.memberGroup)} then [] else [LedgerEntry(d, LabelsChanged("member_group", group.value))])
    + (if role in {None, Some(rec.role)} then [] else [LedgerEntry(d, LabelsChanged("role", role.value))])
  }

  /** Each label asked for is set, each change is written down, and no other part of any record moves. */
  lemma LabelsEffect(r: Roster, d: DeviceId, name: Option<string>, group: Option<string>, role: Option<string>)
    ensures var (q, a) := UpdateLabels(r, d, name, group, role);
            if d !in r.devices then q == r && !a.outcome && a.ledger == []
            else
              && q.tombstones == r.tombstones && q.held == r.held && q.epoch == r.epoch && q.churn == r.churn
              && SameElsewhere(r, q, d) && d in q.devices
              && (var before, after := r.devices[d], q.devices[d];
                  && after == before.(displayName := after.displayName, memberGroup := after.memberGroup, role := after.role)
                  && Relabels(name, before.displayName, after.displayName)
                  && Relabels(group, before.memberGroup, after.memberGroup) && Relabels(role, before.role, after.role))
              && a.ledger == Changes(d, r.devices[d], name, group, role) && (a.outcome <==> a.ledger != [])
  {
    if d in r.devices {
      assert UpdateLabels(r, d, name, group, role).0.devices - {d} == r.devices - {d};
    }
  }

  // ---- syncs ----

  /** A sync carries the epoch, a digest over all it carries, and for each device known here, in order of ids, what is on
      record of it. */
  lemma SyncSays(c: Platform, r: Roster)
    ensures var m, ids := Sync(c, r), SortedKeys(r.devices.Keys);
            && m.epoch == r.epoch && m.digest == c.digest(m.epoch, m.devices) && |m.devices| == |ids|
            && forall i :: 0 <= i < |ids| ==>
                 && ids[i] in r.devices && m.devices[i].deviceId == r.devices[ids[i]].deviceId
                 && m.devices[i].identityPk == r.devices[ids[i]].identityPk && m.devices[i].state == r.devices[ids[i]].state
  {
    var ids := SortedKeys(r.devices.Keys);
    assert forall i :: 0 <= i < |ids| ==> ids[i] in ids;
  }

  /** A tombstone a merge makes is by the sender, without a time, under the larger of the two epochs. */
  ghost predicate MergedTombstones(r: Roster, q: Roster, epoch: nat, sender: DeviceId) {
    && r.tombstones.Keys <= q.tombstones.Keys
    && (forall d :: d in r.tombstones ==> q.tombstones[d] == r.tombstones[d])
    && (forall d :: d in q.tombstones && d !in r.tombstones ==>
          && q.tombstones[d].subject == d && q.tombstones[d].reason == RemovedByMember && q.tombstones[d].removedAt == ""
          && q.tombstones[d].removedBy == sender && q.tombstones[d].epoch == Max(r.epoch, epoch))
    && (q.epoch == r.epoch || q.epoch == Max(r.epoch, epoch))
  }

  lemma MergeOneTombstone(r: Roster, g: Merge, rep: SyncDevice, epoch: nat, sender: DeviceId)
    requires MergedTombstones(r, g.r, epoch, sender)
    ensures MergedTombstones(r, MergeOne(g, rep, epoch, sender).r, epoch, sender)
  {
  }

  lemma {:induction false} MergeTombstonesSay(r: Roster, reported: seq<SyncDevice>, epoch: nat, sender: DeviceId)
    ensures MergedTombstones(r, MergeAll(r, reported, epoch, sender).r, epoch, sender)
  {
    if reported != [] {
      var n := |reported| - 1;
      MergeTombstonesSay(r, reported[..n], epoch, sender);
      MergeOneTombstone(r, MergeAll(r, reported[..n], epoch, sender), reported[n], epoch, sender);
    }
  }

  lemma SyncTombstonesSay(c: Platform, r: Roster, m: SyncMessage, sender: DeviceId)
    ensures var q := ReceiveSync(c, r, m, sender).0;
            && (forall d :: d in r.tombstones ==> d in q.tombstones && q.tombstones[d] == r.tombstones[d])
            && (forall d :: d in q.tombstones && d !in r.tombstones ==>
                  && q.tombstones[d].subject == d && q.tombstones[d].reason == RemovedByMember
                  && q.tombstones[d].removedAt == "" && q.tombstones[d].removedBy == sender
                  && q.tombstones[d].epoch == Max(r.epoch, m.epoch))
  {
    MergeTombstonesSay(r, m.devices, m.epoch, sender);
  }

  /** What a merge leaves of the rest: a record is as it was but for being removed if its device was buried, no one else's
      vouch is dropped, and the sender is noted only if it reports this very device removed. */
  ghost predicate MergedState(r: Roster, q: Roster, reported: seq<SyncDevice>, sender: DeviceId) {
    && q.selfId == r.selfId && q.devices.Keys == r.devices.Keys && r.tombstones.Keys <= q.tombstones.Keys
    && (forall d :: d in r.devices ==>
          q.devices[d] == if d in q.tombstones && d !in r.tombstones then r.devices[d].(state := Removed) else r.devices[d])
    && q.held == r.held - (q.tombstones.Keys - r.tombstones.Keys)
    && q.removedMe == (if r.selfId in r.devices && (exists i :: 0 <= i < |reported| && Ousts(reported[i], r.selfId))
                       then r.removedMe + {sender} else r.removedMe)
  }

  predicate Ousts(rep: SyncDevice, d: DeviceId) {
    rep.deviceId == d && rep.state == Removed
  }

  /** What one reported device does to the state. */
  lemma MergeOneIs(g: Merge, rep: SyncDevice, epoch: nat, sender: DeviceId)
    ensures var q, d := MergeOne(g, rep, epoch, sender).r, rep.deviceId;
            if d !in g.r.devices || rep.state == Active then q == g.r
            else if d == g.r.selfId then q == g.r.(removedMe := g.r.removedMe + {sender})
            else if d in g.r.tombstones then q == g.r
            else && q.selfId == g.r.selfId && q.removedMe == g.r.removedMe && q.held == g.r.held - {d}
                 && q.devices == g.r.devices[d := g.r.devices[d].(state := Removed)]
                 && q.tombstones.Keys == g.r.tombstones.Keys + {d}
  {
  }

  lemma MergeOneState(
    r: Roster, g: Merge, before: seq<SyncDevice>, rep: SyncDevice, reported: seq<SyncDevice>, epoch: nat,
    sender: DeviceId)
    requires MergedState(r, g.r, before, sender) && reported == before + [rep]
    ensures MergedState(r, MergeOne(g, rep, epoch, sender).r, reported, sender)
  {
    MergeOneIs(g, rep, epoch, sender);
    OustedBack(before, rep, r.selfId);
    NextState(r, g.r, before, rep, reported, MergeOne(g, rep, epoch, sender).r, sender);
  }

  lemma NextState(
    r: Roster, p: Roster, before: seq<SyncDevice>, rep: SyncDevice, reported: seq<SyncDevice>, q: Roster,
    sender: DeviceId)
    requires MergedState(r, p, before, sender)
    requires (exists i :: 0 <= i < |reported| && Ousts(reported[i], r.selfId))
             <==> (exists i :: 0 <= i < |before| && Ousts(before[i], r.selfId)) || Ousts(rep, r.selfId)
    requires var d := rep.deviceId;
             if d !in p.devices || rep.state == Active then q == p
             else if d == p.selfId then q == p.(removedMe := p.removedMe + {sender})
             else if d in p.tombstones then q == p
             else && q.selfId == p.selfId && q.removedMe == p.removedMe && q.held == p.held - {d}
                  && q.devices == p.devices[d := p.devices[d].(state := Removed)]
                  && q.tombstones.Keys == p.tombstones.Keys + {d}
    ensures MergedState(r, q, reported, sender)
  {
    var d := rep.deviceId;
    if d in p.devices && rep.state == Removed && d != p.selfId && d !in p.tombstones {
      assert d !in r.tombstones;
      BuriedState(r, p, q, d);
    }
  }

  lemma BuriedState(r: Roster, p: Roster, q: Roster, d: DeviceId)
    requires p.held == r.held - (p.tombstones.Keys - r.tombstones.Keys)
    requires d !in r.tombstones && q.held == p.held - {d} && q.tombstones.Keys == p.tombstones.Keys + {d}
    ensures q.held == r.held - (q.tombstones.Keys - r.tombstones.Keys)
  {
    assert q.tombstones.Keys - r.tombstones.Keys == (p.tombstones.Keys - r.tombstones.Keys) + {d};
  }

  lemma OustedBack(before: seq<SyncDevice>, rep: SyncDevice, d: DeviceId)
    ensures var reported := before + [rep];
            && ((exists i :: 0 <= i < |reported| && Ousts(reported[i], d))
                <==> (exists i :: 0 <= i < |before| && Ousts(before[i], d)) || Ousts(rep, d))
  {
    var reported := before + [rep];
    if i :| 0 <= i < |before| && Ousts(before[i], d) {
      assert Ousts(reported[i], d);
    }
    if Ousts(rep, d) {
      assert Ousts(reported[|before|], d);
    }
  }

  lemma {:induction false} MergeStateSays(r: Roster, reported: seq<SyncDevice>, epoch: nat, sender: DeviceId)
    ensures MergedState(r, MergeAll(r, reported, epoch, sender).r, reported, sender)
  {
    if reported != [] {
      var n := |reported| - 1;
      MergeStateSays(r, reported[..n], epoch, sender);
      assert reported == reported[..n] + [reported[n]];
      MergeOneState(r, MergeAll(r, reported[..n], epoch, sender), reported[..n], reported[n], reported, epoch, sender);
    }
  }

  /** The outcome of a sync: a digest that does not fit, then a sender that is not active, then nothing new, then a merge;
      and what each leaves. */
  lemma SyncOutcomeExactly(c: Platform, r: Roster, m: SyncMessage, sender: DeviceId)
    ensures var (q, a) := ReceiveSync(c, r, m, sender);
            if c.digest(m.epoch, m.devices) != m.digest then a.outcome == BadDigest && q == r
            else if sender !in r.devices || r.devices[sender].state == Removed then a.outcome == RefusedSync(sender) && q == r
            else if m.epoch == r.epoch && m.devices == Sync(c, r).devices then a.outcome == InSync && q == r
            else a.outcome.Merged? && MergedState(r, q, m.devices, sender)
  {
    MergeStateSays(r, m.devices, m.epoch, sender);
  }

  /** The server's list moves nothing but the state of records, and that only to removed. */
  predicate OnlyState(r: Roster, q: Roster) {
    && q == r.(devices := q.devices) && q.devices.Keys == r.devices.Keys
    && forall d :: d in r.devices ==>
         q.devices[d] == r.devices[d] || q.devices[d] == r.devices[d].(state := Removed)
  }

  lemma ReconcileOneState(r: Roster, g: Reconciliation, one: ServerDevice)
    requires OnlyState(r, g.r)
    ensures OnlyState(r, ReconcileOne(g, one).r)
  {
  }

  lemma {:induction false} ReconcileAllState(r: Roster, listed: seq<ServerDevice>)
    ensures OnlyState(r, ReconcileAll(r, listed).r)
  {
    if listed != [] {
      ReconcileAllState(r, listed[..|listed| - 1]);
      ReconcileOneState(r, ReconcileAll(r, listed[..|listed| - 1]), listed[|listed| - 1]);
    }
  }

  lemma ReconcileState(r: Roster, listed: seq<ServerDevice>)
    ensures OnlyState(r, Reconcile(r, listed).0)
  {
    ReconcileAllState(r, listed);
  }
}
