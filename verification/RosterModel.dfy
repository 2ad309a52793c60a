/** The membership state machine as values: a device's roster, and what each step makes of it.

    Ed25519, SHA-256 and the reading of signed timestamps are a `Platform`, about which nothing is assumed. */
module RosterModel {
  import opened Wrappers
  import opened StringOrder
  import Churn

  type DeviceId = string

  const MAX_ACTIVE_DEVICES: nat := 20

  datatype DeviceState = Active | Removed

  datatype RemovalReason = LeftFamily | RemovedByMember | LostOrStolen

  datatype Subject = Subject(
    deviceId: DeviceId, identityPk: string, displayName: string, memberGroup: string, role: string, joinedAt: string)

  datatype Introduce = Introduce(subject: Subject, epoch: nat, vouch: string)

  datatype Remove = Remove(subject: DeviceId, reason: RemovalReason, removedAt: string, epoch: nat, sig: string)

  datatype SyncDevice = SyncDevice(deviceId: DeviceId, identityPk: string, state: DeviceState)

  datatype SyncMessage = SyncMessage(epoch: nat, devices: seq<SyncDevice>, digest: string)

  datatype DeviceRecord = DeviceRecord(
    deviceId: DeviceId, identityPk: string, displayName: string, memberGroup: string, role: string, joinedAt: string,
    introducedBy: DeviceId, state: DeviceState)

  datatype Tombstone = Tombstone(
    subject: DeviceId, reason: RemovalReason, removedAt: string, removedBy: DeviceId, epoch: nat)

  datatype Held = Held(message: Introduce, introducer: DeviceId, eventsInWindow: nat)

  datatype Roster = Roster(
    selfId: DeviceId,
    devices: map<DeviceId, DeviceRecord>,
    tombstones: map<DeviceId, Tombstone>,
    epoch: nat,
    churn: Churn.Log,
    held: map<DeviceId, Held>,
    removedMe: set<DeviceId>)

  /** Signature checks, key parsing, digests and timestamp reading. */
  datatype Platform = Platform(
    usable: string -> bool,
    vouchVerifies: (string, Introduce) -> bool,
    removalVerifies: (string, Remove) -> bool,
    digest: (nat, seq<SyncDevice>) -> string,
    readTime: string -> Option<int>)

  // ---- what is written to the ledger ----

  datatype LedgerEvent =
    | DeviceJoined(vouchedBy: DeviceId)
    | DeviceRemoved(removedBy: DeviceId, reason: RemovalReason)
    | VouchRejected
    | AdmissionHeld(eventsInWindow: nat)
    | AdmissionResolved(admitted: bool)
    | UnvouchedDeviceListed
    | EpochBumped(epoch: nat)
    | FamilySplit(counterpart: DeviceId)
    | LabelsChanged(field: string, text: string)

  datatype LedgerEntry = LedgerEntry(peer: DeviceId, event: LedgerEvent)

  datatype Applied<+T> = Applied(outcome: T, ledger: seq<LedgerEntry>)

  // ---- outcomes ----

  datatype VouchRefusal =
    | IntroducerNotActive(introducer: DeviceId)
    | SubjectTombstoned(subject: DeviceId)
    | SelfVouch(subject: DeviceId)
    | SizeCapReached(active: nat)
    | BadSignature
    | MalformedIdentityKey
    | IdentityChanged(subject: DeviceId)

  datatype Admission = Admitted | AlreadyKnown | HeldForUser(eventsInWindow: nat) | RefusedVouch(refusal: VouchRefusal)

  datatype RemovalRefusal = RemoverNotActive(remover: DeviceId) | BadRemovalSignature

  datatype Removal = RemovalApplied | AlreadyRemoved | AboutSelf | RefusedRemoval(refusal: RemovalRefusal)

  datatype SyncOutcome =
    | InSync
    | RefusedSync(sender: DeviceId)
    | Merged(removalsApplied: nat, anomalies: seq<DeviceId>)
    | BadDigest

  datatype ServerDevice = ServerDevice(deviceId: DeviceId, revoked: bool)

  datatype ServerFinding =
    | RevokedByServer(deviceId: DeviceId)
    | Normal(deviceId: DeviceId)
    | Unvouched(deviceId: DeviceId)
    | Unreachable(deviceId: DeviceId)

  // ---- queries ----

  predicate IsActive(r: Roster, d: DeviceId) {
    d in r.devices && r.devices[d].state == Active
  }

  function ActiveSet(r: Roster): set<DeviceId> {
    set d | d in r.devices && IsActive(r, d)
  }

  function ActiveCount(r: Roster): nat {
    |ActiveSet(r)|
  }

  function Splits(r: Roster): set<DeviceId> {
    r.removedMe * r.tombstones.Keys
  }

  /** The key of an active member, when it is usable. */
  predicate HasIdentity(c: Platform, r: Roster, d: DeviceId) {
    IsActive(r, d) && c.usable(r.devices[d].identityPk)
  }

  function TimestampOr(c: Platform, text: string, now: int): int {
    var t := c.readTime(text);
    if t.Some? then t.value else now
  }

  // ---- founding ----

  function FromVouch(s: Subject, introducedBy: DeviceId): DeviceRecord {
    DeviceRecord(s.deviceId, s.identityPk, s.displayName, s.memberGroup, s.role, s.joinedAt, introducedBy, Active)
  }

  function Found(me: Subject): Roster {
    Roster(me.deviceId, map[me.deviceId := FromVouch(me, me.deviceId)], map[], 0, map[], map[], {})
  }

  // ---- the two ways a roster changes ----

  function SplitLedger(r: Roster, peer: DeviceId): seq<LedgerEntry> {
    if peer in Splits(r) then [LedgerEntry(peer, FamilySplit(peer))] else []
  }

  function Deactivated(devices: map<DeviceId, DeviceRecord>, d: DeviceId): map<DeviceId, DeviceRecord> {
    if d in devices then devices[d := devices[d].(state := Removed)] else devices
  }

  /** The one way out: a tombstone, an inactive record, no stamps, no held vouch, and an epoch no smaller. */
  function Buried(r: Roster, t: Tombstone): Roster {
    r.(tombstones := r.tombstones[t.subject := t],
       devices := Deactivated(r.devices, t.subject),
       churn := Churn.Forgotten(r.churn, t.subject),
       held := r.held - {t.subject},
       epoch := Max(r.epoch, t.epoch))
  }

  function BuriedLedger(r: Roster, t: Tombstone): seq<LedgerEntry> {
    [LedgerEntry(t.subject, DeviceRemoved(t.removedBy, t.reason)),
     LedgerEntry(t.subject, EpochBumped(Max(r.epoch, t.epoch)))]
    + SplitLedger(Buried(r, t), t.subject)
  }

  function Admit(r: Roster, s: Subject, introducer: DeviceId): Roster {
    r.(devices := r.devices[s.deviceId := FromVouch(s, introducer)])
  }

  function JoinedLedger(s: Subject, introducer: DeviceId): seq<LedgerEntry> {
    [LedgerEntry(s.deviceId, DeviceJoined(introducer))]
  }

  // ---- receiving a vouch ----

  /** The first rule a vouch breaks, in the order the rules are checked. */
  function VouchRule(c: Platform, r: Roster, m: Introduce, introducer: DeviceId): Option<VouchRefusal> {
    var s := m.subject.deviceId;
    if !IsActive(r, introducer) then Some(IntroducerNotActive(introducer))
    else if s in r.tombstones then Some(SubjectTombstoned(s))
    else if s == introducer then Some(SelfVouch(s))
    else if s in r.devices && r.devices[s].identityPk != m.subject.identityPk then Some(IdentityChanged(s))
    else if !IsActive(r, s) && ActiveCount(r) >= MAX_ACTIVE_DEVICES then Some(SizeCapReached(ActiveCount(r)))
    else if !HasIdentity(c, r, introducer) then Some(MalformedIdentityKey)
    else if !c.vouchVerifies(r.devices[introducer].identityPk, m) then Some(BadSignature)
    else if !c.usable(m.subject.identityPk) then Some(MalformedIdentityKey)
    else None
  }

  function ReceiveIntroduce(c: Platform, r: Roster, m: Introduce, introducer: DeviceId, now: int)
    : (Roster, Applied<Admission>)
  {
    var s := m.subject.deviceId;
    var rule := VouchRule(c, r, m, introducer);
    if rule.Some? then (r, Applied(RefusedVouch(rule.value), [LedgerEntry(s, VouchRejected)]))
    else if IsActive(r, s) then (r, Applied(AlreadyKnown, []))
    else if Churn.WouldExceed(r.churn, introducer, now) then
      var n := Churn.CountInWindow(r.churn, introducer, now);
      (r.(held := r.held[s := Held(m, introducer, n)]),
       Applied(HeldForUser(n), [LedgerEntry(s, AdmissionHeld(n))]))
    else
      var signedAt := TimestampOr(c, m.subject.joinedAt, now);
      (Admit(r.(churn := Churn.Recorded(r.churn, introducer, signedAt, now)), m.subject, introducer),
       Applied(Admitted, JoinedLedger(m.subject, introducer)))
  }

  // ---- the quarantine ----

  function ApproveHeld(r: Roster, subject: DeviceId): (Roster, Applied<Option<Admission>>) {
    if subject !in r.held then (r, Applied(None, []))
    else
      var h := r.held[subject];
      var q := r.(held := r.held - {subject});
      if !IsActive(r, h.introducer) then
        (q, Applied(Some(RefusedVouch(IntroducerNotActive(h.introducer))),
                    [LedgerEntry(subject, AdmissionResolved(false)), LedgerEntry(subject, VouchRejected)]))
      else if subject in r.tombstones then
        (q, Applied(Some(RefusedVouch(SubjectTombstoned(subject))),
                    [LedgerEntry(subject, AdmissionResolved(false)), LedgerEntry(subject, VouchRejected)]))
      else
        (Admit(q, h.message.subject, h.introducer),
         Applied(Some(Admitted),
                 [LedgerEntry(subject, AdmissionResolved(true))] + JoinedLedger(h.message.subject, h.introducer)))
  }

  function DenyHeld(r: Roster, subject: DeviceId): (Roster, Applied<bool>) {
    if subject !in r.held then (r, Applied(false, []))
    else (r.(held := r.held - {subject}), Applied(true, [LedgerEntry(subject, AdmissionResolved(false))]))
  }

  // ---- removals ----

  function RemoveOwn(c: Platform, r: Roster, subject: DeviceId, reason: RemovalReason, removedAt: string, now: int)
    : (Roster, Result<seq<LedgerEntry>, RemovalRefusal>)
  {
    if !IsActive(r, r.selfId) then (r, Err(RemoverNotActive(r.selfId)))
    else
      var churn := if subject == r.selfId then r.churn
                   else Churn.Recorded(r.churn, r.selfId, TimestampOr(c, removedAt, now), now);
      var t := Tombstone(subject, reason, removedAt, r.selfId, r.epoch + 1);
      (Buried(r.(churn := churn), t), Ok(BuriedLedger(r, t)))
  }

  function TombstoneOf(m: Remove, remover: DeviceId): Tombstone {
    Tombstone(m.subject, m.reason, m.removedAt, remover, m.epoch)
  }

  function RefuseRemoval(r: Roster, m: Remove, refusal: RemovalRefusal): (Roster, Applied<Removal>) {
    (r, Applied(RefusedRemoval(refusal), [LedgerEntry(m.subject, VouchRejected)]))
  }

  /** Being told of one's own removal: recorded and surfaced, whoever still active or not has signed it. */
  function ReceiveRemovalOfSelf(c: Platform, r: Roster, m: Remove, remover: DeviceId): (Roster, Applied<Removal>) {
    if remover !in r.devices || !c.usable(r.devices[remover].identityPk) then
      RefuseRemoval(r, m, RemoverNotActive(remover))
    else if !c.removalVerifies(r.devices[remover].identityPk, m) then RefuseRemoval(r, m, BadRemovalSignature)
    else
      var q := r.(removedMe := r.removedMe + {remover}, epoch := Max(r.epoch, m.epoch));
      (q, Applied(AboutSelf, [LedgerEntry(remover, DeviceRemoved(remover, m.reason))] + SplitLedger(q, remover)))
  }

  function ChurnOfRemoval(c: Platform, log: Churn.Log, m: Remove, remover: DeviceId, now: int): Churn.Log {
    if m.subject == remover then log else Churn.Recorded(log, remover, TimestampOr(c, m.removedAt, now), now)
  }

  function ReceiveRemove(c: Platform, r: Roster, m: Remove, remover: DeviceId, now: int): (Roster, Applied<Removal>) {
    if m.subject == r.selfId then ReceiveRemovalOfSelf(c, r, m, remover)
    else if !IsActive(r, remover) then RefuseRemoval(r, m, RemoverNotActive(remover))
    else if !HasIdentity(c, r, remover) then RefuseRemoval(r, m, BadRemovalSignature)
    else if !c.removalVerifies(r.devices[remover].identityPk, m) then RefuseRemoval(r, m, BadRemovalSignature)
    else
      var counted := r.(churn := ChurnOfRemoval(c, r.churn, m, remover, now));
      if m.subject in r.tombstones then (counted, Applied(AlreadyRemoved, []))
      else
        var t := TombstoneOf(m, remover);
        (Buried(counted, t), Applied(RemovalApplied, BuriedLedger(r, t)))
  }

  // ---- sync ----

  /** The roster's devices as a sync reports them, in id order. */
  function SyncDevicesOf(devices: map<DeviceId, DeviceRecord>, ids: seq<DeviceId>): seq<SyncDevice>
    requires forall d :: d in ids ==> d in devices
  {
    seq(|ids|, i requires 0 <= i < |ids| =>
      SyncDevice(devices[ids[i]].deviceId, devices[ids[i]].identityPk, devices[ids[i]].state))
  }

  function SyncDevices(r: Roster): seq<SyncDevice> {
    SyncDevicesOf(r.devices, SortedKeys(r.devices.Keys))
  }

  function Sync(c: Platform, r: Roster): SyncMessage {
    SyncMessage(r.epoch, SyncDevices(r), c.digest(r.epoch, SyncDevices(r)))
  }

  /** A merge in progress. */
  datatype Merge = Merge(r: Roster, removals: nat, anomalies: seq<DeviceId>, ledger: seq<LedgerEntry>)

  function SyncTombstone(d: DeviceId, sender: DeviceId, epoch: nat): Tombstone {
    Tombstone(d, RemovedByMember, "", sender, epoch)
  }

  /** What one reported device does to the merge. */
  function MergeOne(g: Merge, reported: SyncDevice, epoch: nat, sender: DeviceId): Merge {
    var d := reported.deviceId;
    if d !in g.r.devices then
      if d in g.r.tombstones then g
      else g.(anomalies := g.anomalies + [d], ledger := g.ledger + [LedgerEntry(d, VouchRejected)])
    else if reported.state == Active then g
    else if d == g.r.selfId then
      var q := g.r.(removedMe := g.r.removedMe + {sender});
      g.(r := q, ledger := g.ledger + SplitLedger(q, sender))
    else if d in g.r.tombstones then g
    else
      var t := SyncTombstone(d, sender, Max(g.r.epoch, epoch));
      g.(r := Buried(g.r, t), removals := g.removals + 1, ledger := g.ledger + BuriedLedger(g.r, t))
  }

  function MergeAll(r: Roster, reported: seq<SyncDevice>, epoch: nat, sender: DeviceId): Merge {
    if reported == [] then Merge(r, 0, [], [])
    else MergeOne(MergeAll(r, reported[..|reported| - 1], epoch, sender), reported[|reported| - 1], epoch, sender)
  }

  function ReceiveSync(c: Platform, r: Roster, m: SyncMessage, sender: DeviceId): (Roster, Applied<SyncOutcome>) {
    if c.digest(m.epoch, m.devices) != m.digest then (r, Applied(BadDigest, []))
    else if !IsActive(r, sender) then (r, Applied(RefusedSync(sender), []))
    else if m.epoch == r.epoch && m.devices == SyncDevices(r) then (r, Applied(InSync, []))
    else
      var g := MergeAll(r, m.devices, m.epoch, sender);
      var outcome := Merged(g.removals, g.anomalies);
      if m.epoch > g.r.epoch then
        (g.r.(epoch := m.epoch), Applied(outcome, g.ledger + [LedgerEntry(sender, EpochBumped(m.epoch))]))
      else (g.r, Applied(outcome, g.ledger))
  }

  // ---- labels ----

  function Relabelled(rec: DeviceRecord, name: Option<string>, group: Option<string>, role: Option<string>)
    : DeviceRecord
  {
    rec.(displayName := if name.Some? then name.value else rec.displayName,
         memberGroup := if group.Some? then group.value else rec.memberGroup,
         role := if role.Some? then role.value else rec.role)
  }

  function LabelLedger(d: DeviceId, field: string, wanted: Option<string>, current: string): seq<LedgerEntry> {
    if wanted.Some? && wanted.value != current then [LedgerEntry(d, LabelsChanged(field, wanted.value))] else []
  }

  function UpdateLabels(r: Roster, d: DeviceId, name: Option<string>, group: Option<string>, role: Option<string>)
    : (Roster, Applied<bool>)
  {
    if d !in r.devices then (r, Applied(false, []))
    else
      var rec := r.devices[d];
      var ledger := LabelLedger(d, "display_name", name, rec.displayName)
                    + LabelLedger(d, "member_group", group, rec.memberGroup)
                    + LabelLedger(d, "role", role, rec.role);
      (r.(devices := r.devices[d := Relabelled(rec, name, group, role)]), Applied(ledger != [], ledger))
  }

  // ---- the server's list ----

  datatype Reconciliation = Reconciliation(r: Roster, findings: seq<ServerFinding>, ledger: seq<LedgerEntry>)

  function ReconcileOne(g: Reconciliation, listed: ServerDevice): Reconciliation {
    var d := listed.deviceId;
    if d !in g.r.devices then
      g.(findings := g.findings + [Unvouched(d)], ledger := g.ledger + [LedgerEntry(d, UnvouchedDeviceListed)])
    else if !IsActive(g.r, d) then g
    else if listed.revoked then
      Reconciliation(g.r.(devices := Deactivated(g.r.devices, d)), g.findings + [RevokedByServer(d)],
                     g.ledger + [LedgerEntry(d, DeviceRemoved("server", RemovedByMember))])
    else g.(findings := g.findings + [Normal(d)])
  }

  function ReconcileAll(r: Roster, listed: seq<ServerDevice>): Reconciliation {
    if listed == [] then Reconciliation(r, [], [])
    else ReconcileOne(ReconcileAll(r, listed[..|listed| - 1]), listed[|listed| - 1])
  }

  function ListedIds(listed: seq<ServerDevice>): set<DeviceId> {
    set i | 0 <= i < |listed| :: listed[i].deviceId
  }

  /** Active devices the server did not list, among the given ids. */
  function UnlistedAmong(r: Roster, ids: seq<DeviceId>, listed: set<DeviceId>): seq<ServerFinding> {
    if ids == [] then [] else
      var d := ids[|ids| - 1];
      UnlistedAmong(r, ids[..|ids| - 1], listed)
        + if IsActive(r, d) && d !in listed then [Unreachable(d)] else []
  }

  function Reconcile(r: Roster, listed: seq<ServerDevice>): (Roster, Applied<seq<ServerFinding>>) {
    var g := ReconcileAll(r, listed);
    (g.r, Applied(g.findings + UnlistedAmong(g.r, SortedKeys(g.r.devices.Keys), ListedIds(listed)), g.ledger))
  }

  // ---- steps ----

  /** Everything that can happen to a roster. */
  datatype Step =
    | DoIntroduce(message: Introduce, introducer: DeviceId, now: int)
    | DoApprove(subject: DeviceId)
    | DoDeny(subject: DeviceId)
    | DoRemoveOwn(subject: DeviceId, reason: RemovalReason, removedAt: string, now: int)
    | DoReceiveRemove(removal: Remove, remover: DeviceId, now: int)
    | DoSync(sync: SyncMessage, sender: DeviceId)
    | DoLabels(device: DeviceId, name: Option<string>, group: Option<string>, role: Option<string>)
    | DoReconcile(listed: seq<ServerDevice>)

  function Next(c: Platform, r: Roster, step: Step): (Roster, seq<LedgerEntry>) {
    match step
    case DoIntroduce(m, introducer, now) =>
      var (q, a) := ReceiveIntroduce(c, r, m, introducer, now); (q, a.ledger)
    case DoApprove(subject) => var (q, a) := ApproveHeld(r, subject); (q, a.ledger)
    case DoDeny(subject) => var (q, a) := DenyHeld(r, subject); (q, a.ledger)
    case DoRemoveOwn(subject, reason, removedAt, now) =>
      var (q, a) := RemoveOwn(c, r, subject, reason, removedAt, now); (q, if a.Ok? then a.value else [])
    case DoReceiveRemove(m, remover, now) =>
      var (q, a) := ReceiveRemove(c, r, m, remover, now); (q, a.ledger)
    case DoSync(m, sender) => var (q, a) := ReceiveSync(c, r, m, sender); (q, a.ledger)
    case DoLabels(d, name, group, role) => var (q, a) := UpdateLabels(r, d, name, group, role); (q, a.ledger)
    case DoReconcile(listed) => var (q, a) := Reconcile(r, listed); (q, a.ledger)
  }

  function Run(c: Platform, start: Roster, steps: seq<Step>): Roster {
    if steps == [] then start
    else Next(c, Run(c, start, steps[..|steps| - 1]), steps[|steps| - 1]).0
  }
}
