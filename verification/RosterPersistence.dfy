/** Rosters as they are stored and handed over: export, import, and a joiner's adoption of a roster. */
module RosterPersistence {
  import opened Wrappers
  import opened StringOrder
  import opened RosterModel
  import opened RosterInvariants
  import opened RosterProvenance
  import Churn
  import Effects = RosterEffects

  const SNAPSHOT_VERSION: nat := 1

  datatype Snapshot = Snapshot(
    v: nat, selfId: DeviceId, devices: seq<DeviceRecord>, tombstones: seq<Tombstone>, epoch: nat, churn: Churn.Log,
    held: seq<Held>, removedMe: seq<DeviceId>)

  datatype SnapshotError = UnsupportedVersion(version: nat) | WrongDevice(expected: DeviceId, found: DeviceId)

  function RecordKey(d: DeviceRecord): DeviceId { d.deviceId }

  function TombstoneKey(t: Tombstone): DeviceId { t.subject }

  function HeldKey(h: Held): DeviceId { h.message.subject.deviceId }

  // ---- maps as lists ----

  function Values<V>(m: map<string, V>, ids: seq<string>): (s: seq<V>)
    requires forall k :: k in ids ==> k in m
    ensures |s| == |ids| && forall i :: 0 <= i < |ids| ==> s[i] == m[ids[i]]
  {
    if ids == [] then [] else Values(m, ids[..|ids| - 1]) + [m[ids[|ids| - 1]]]
  }

  /** A map filed under the key each element carries; of two elements with one key the later one stays. */
  function FromList<V>(s: seq<V>, key: V -> string): map<string, V> {
    if s == [] then map[] else FromList(s[..|s| - 1], key)[key(s[|s| - 1]) := s[|s| - 1]]
  }

  lemma {:induction false} FromListKeyed<V>(s: seq<V>, key: V -> string)
    ensures forall k :: k in FromList(s, key) ==> key(FromList(s, key)[k]) == k && FromList(s, key)[k] in s
  {
    if s != [] {
      FromListKeyed(s[..|s| - 1], key);
    }
  }

  lemma {:induction false} ListRoundTrip<V>(m: map<string, V>, ids: seq<string>, key: V -> string)
    requires forall k :: k in ids ==> k in m && key(m[k]) == k
    ensures var t := FromList(Values(m, ids), key);
            (forall k :: k in t <==> k in ids) && (forall k :: k in t ==> k in m && t[k] == m[k])
  {
    if ids != [] {
      var n := |ids| - 1;
      assert ids == ids[..n] + [ids[n]];
      ListRoundTrip(m, ids[..n], key);
    }
  }

  ghost predicate FiledUnder<V>(m: map<string, V>, key: V -> string) {
    forall k :: k in m ==> key(m[k]) == k
  }

  function Relisted<V>(m: map<string, V>, key: V -> string): map<string, V> {
    FromList(Values(m, SortedKeys(m.Keys)), key)
  }

  lemma SameMap<V>(a: map<string, V>, b: map<string, V>)
    requires forall k :: k in a <==> k in b
    requires forall k :: k in a ==> a[k] == b[k]
    ensures a == b
  {
  }

  lemma RelistedRestores<V>(m: map<string, V>, key: V -> string)
    requires FiledUnder(m, key)
    ensures Relisted(m, key) == m
  {
    ListRoundTrip(m, SortedKeys(m.Keys), key);
    SameMap(Relisted(m, key), m);
  }

  /** Listing a map in key order and filing the list again restores the map exactly when every element carries
      the key it is filed under. */
  lemma MapRoundTrip<V>(m: map<string, V>, key: V -> string)
    ensures Relisted(m, key) == m <==> FiledUnder(m, key)
  {
    if FiledUnder(m, key) {
      RelistedRestores(m, key);
    }
    FromListKeyed(Values(m, SortedKeys(m.Keys)), key);
  }

  // ---- export and import ----

  function Export(r: Roster): Snapshot {
    Snapshot(SNAPSHOT_VERSION, r.selfId, Values(r.devices, SortedKeys(r.devices.Keys)),
             Values(r.tombstones, SortedKeys(r.tombstones.Keys)), r.epoch, r.churn,
             Values(r.held, SortedKeys(r.held.Keys)), SortedKeys(r.removedMe))
  }

  function Import(s: Snapshot, selfId: DeviceId): Result<Roster, SnapshotError> {
    if s.v != SNAPSHOT_VERSION then Err(UnsupportedVersion(s.v))
    else if s.selfId != selfId then Err(WrongDevice(selfId, s.selfId))
    else Ok(Roster(selfId, FromList(s.devices, RecordKey), FromList(s.tombstones, TombstoneKey), s.epoch, s.churn,
                   FromList(s.held, HeldKey), set d | d in s.removedMe))
  }

  /** A roster survives being stored and restored if and only if everything in it is filed under its own id. */
  lemma SnapshotRoundTrip(r: Roster)
    ensures Import(Export(r), r.selfId) == Ok(r) <==> Keyed(r)
  {
    ImportedParts(r);
    MapRoundTrip(r.devices, RecordKey);
    MapRoundTrip(r.tombstones, TombstoneKey);
    MapRoundTrip(r.held, HeldKey);
    KeyedIsFiled(r);
  }

  lemma KeyedIsFiled(r: Roster)
    ensures Keyed(r) <==> FiledUnder(r.devices, RecordKey) && FiledUnder(r.tombstones, TombstoneKey)
                          && FiledUnder(r.held, HeldKey)
  {
  }

  lemma ImportedParts(r: Roster)
    ensures Import(Export(r), r.selfId)
         == Ok(r.(devices := Relisted(r.devices, RecordKey), tombstones := Relisted(r.tombstones, TombstoneKey),
                  held := Relisted(r.held, HeldKey)))
  {
    assert (set d | d in SortedKeys(r.removedMe)) == r.removedMe;
  }

  /** Every roster a founder can reach therefore restores to itself, and to no other device. */
  lemma ReachableRoundTrip(c: Platform, me: Subject, steps: seq<Step>, other: DeviceId)
    ensures var r := Run(c, Found(me), steps);
            && Import(Export(r), r.selfId) == Ok(r)
            && (other != r.selfId ==> Import(Export(r), other) == Err(WrongDevice(other, r.selfId)))
  {
    FoundInv(me);
    ReachableInv(c, Found(me), steps);
    SnapshotRoundTrip(Run(c, Found(me), steps));
  }

  // ---- adoption ----

  /** The joining device's side: the vouch is checked against the introducer's key, the rest is taken on trust. */
  function Adopt(
    c: Platform, selfId: DeviceId, introducer: DeviceRecord, devices: seq<DeviceRecord>, tombstones: seq<Tombstone>,
    epoch: nat, vouch: Introduce) : Result<Applied<Roster>, VouchRefusal>
  {
    if vouch.subject.deviceId != selfId then Err(SelfVouch(vouch.subject.deviceId))
    else if !c.usable(introducer.identityPk) then Err(MalformedIdentityKey)
    else if !c.vouchVerifies(introducer.identityPk, vouch) then Err(BadSignature)
    else
      var ts := FromList(tombstones, TombstoneKey);
      if selfId in ts then Err(SubjectTombstoned(selfId))
      else
        var theirs := FromList(devices, RecordKey)[selfId := FromVouch(vouch.subject, introducer.deviceId)];
        var all := if introducer.deviceId in theirs then theirs else theirs[introducer.deviceId := introducer];
        Ok(Applied(Roster(selfId, all, ts, epoch, map[], map[], {}),
                   AdoptLedger(devices) + [LedgerEntry(selfId, DeviceJoined(introducer.deviceId))]))
  }

  function AdoptLedger(devices: seq<DeviceRecord>): seq<LedgerEntry> {
    if devices == [] then [] else
      AdoptLedger(devices[..|devices| - 1])
        + [LedgerEntry(devices[|devices| - 1].deviceId, DeviceJoined(devices[|devices| - 1].introducedBy))]
  }

  /** What the handed-over lists must satisfy for the adopted roster to be sound; adoption checks none of it. */
  predicate WellFormed(introducer: DeviceRecord, devices: seq<DeviceRecord>, tombstones: seq<Tombstone>, epoch: nat) {
    && (forall t :: t in tombstones ==> t.epoch <= epoch)
    && (forall t, d :: t in tombstones && d in devices && t.subject == d.deviceId ==> d.state == Removed)
    && (forall t :: t in tombstones && t.subject == introducer.deviceId ==>
          introducer.state == Removed || exists d :: d in devices && d.deviceId == introducer.deviceId)
  }

  lemma {:induction false} FromListHasAll<V>(s: seq<V>, key: V -> string)
    ensures forall v :: v in s ==> key(v) in FromList(s, key)
  {
    if s != [] {
      FromListHasAll(s[..|s| - 1], key);
      assert s == s[..|s| - 1] + [s[|s| - 1]];
    }
  }

  /** Adopting a well-formed roster starts the joiner in a state that satisfies the invariant, with itself an
      active member and nothing held. */
  lemma AdoptSound(
    c: Platform, selfId: DeviceId, introducer: DeviceRecord, devices: seq<DeviceRecord>, tombstones: seq<Tombstone>,
    epoch: nat, vouch: Introduce)
    requires WellFormed(introducer, devices, tombstones, epoch)
    requires Adopt(c, selfId, introducer, devices, tombstones, epoch, vouch).Ok?
    ensures var r := Adopt(c, selfId, introducer, devices, tombstones, epoch, vouch).value.outcome;
            Inv(r) && r.held == map[] && r.selfId == selfId && IsActive(r, selfId)
            && c.vouchVerifies(introducer.identityPk, vouch)
  {
    FromListKeyed(devices, RecordKey);
    FromListHasAll(devices, RecordKey);
    FromListKeyed(tombstones, TombstoneKey);
    var r := Adopt(c, selfId, introducer, devices, tombstones, epoch, vouch).value.outcome;
    forall d | d in r.tombstones ensures !IsActive(r, d) {
      var t := r.tombstones[d];
      assert t in tombstones && TombstoneKey(t) == d;
    }
  }

  /** Handing over a sound roster, the introducer's own record included, gives the joiner the same view of every
      other device, with the same tombstones and the same epoch. */
  lemma AdoptAgrees(c: Platform, a: Roster, selfId: DeviceId, vouch: Introduce, d: DeviceId)
    requires Inv(a) && a.selfId in a.devices && selfId != a.selfId && d != selfId
    requires c.usable(a.devices[a.selfId].identityPk) && c.vouchVerifies(a.devices[a.selfId].identityPk, vouch)
    requires vouch.subject.deviceId == selfId
    ensures var adopted := Adopt(c, selfId, a.devices[a.selfId], Export(a).devices, Export(a).tombstones, a.epoch, vouch);
            && (adopted.Err? <==> selfId in a.tombstones)
            && (adopted.Ok? ==>
                  var r := adopted.value.outcome;
                  && Inv(r) && r.tombstones == a.tombstones && r.epoch == a.epoch
                  && (d in r.devices <==> d in a.devices) && (d in r.devices ==> r.devices[d] == a.devices[d]))
  {
    KeyedIsFiled(a);
    RelistedRestores(a.devices, RecordKey);
    RelistedRestores(a.tombstones, TombstoneKey);
    if selfId !in a.tombstones {
      AdoptedParts(c, a, selfId, vouch);
      AdoptedInv(a, selfId, vouch);
    }
  }

  lemma AdoptedInv(a: Roster, selfId: DeviceId, vouch: Introduce)
    requires Inv(a) && selfId !in a.tombstones && vouch.subject.deviceId == selfId
    ensures Inv(Roster(selfId, a.devices[selfId := FromVouch(vouch.subject, a.selfId)], a.tombstones, a.epoch, map[],
                       map[], {}))
  {
    SharedInv(a, Roster(selfId, a.devices[selfId := FromVouch(vouch.subject, a.selfId)], a.tombstones, a.epoch, map[],
                        map[], {}));
  }

  lemma AdoptedParts(c: Platform, a: Roster, selfId: DeviceId, vouch: Introduce)
    requires a.selfId in a.devices && selfId != a.selfId && vouch.subject.deviceId == selfId
    requires a.devices[a.selfId].deviceId == a.selfId && selfId !in a.tombstones
    requires Relisted(a.devices, RecordKey) == a.devices && Relisted(a.tombstones, TombstoneKey) == a.tombstones
    requires c.usable(a.devices[a.selfId].identityPk) && c.vouchVerifies(a.devices[a.selfId].identityPk, vouch)
    ensures var adopted := Adopt(c, selfId, a.devices[a.selfId], Export(a).devices, Export(a).tombstones, a.epoch, vouch);
            && adopted.Ok?
            && adopted.value.outcome == Roster(selfId, a.devices[selfId := FromVouch(vouch.subject, a.selfId)],
                                               a.tombstones, a.epoch, map[], map[], {})
  {
  }

  lemma SharedInv(a: Roster, r: Roster)
    requires Inv(a) && Keyed(r) && r.tombstones == a.tombstones && r.epoch == a.epoch && r.held == map[]
    requires r.selfId !in a.tombstones
    requires forall d :: d in r.devices && d != r.selfId ==> d in a.devices && r.devices[d] == a.devices[d]
    ensures Inv(r)
  {
  }

  // ---- when a roster is taken over ----

  /** A stored roster is restored exactly if its version is one and it is this device's; the error names what differs. */
  lemma RestoredExactlyWhen(s: Snapshot, selfId: DeviceId)
    ensures match Import(s, selfId)
            case Ok(r) => s.v == 1 && s.selfId == selfId == r.selfId && r.epoch == s.epoch && r.churn == s.churn
            case Err(UnsupportedVersion(v)) => v == s.v != 1
            case Err(WrongDevice(expected, found)) => s.v == 1 && expected == selfId != found && found == s.selfId
  {
  }

  /** No tombstone handed over is this device's. */
  predicate NotTombstoned(selfId: DeviceId, tombstones: seq<Tombstone>) {
    forall t :: t in tombstones ==> t.subject != selfId
  }

  lemma TombstonedExactly(selfId: DeviceId, tombstones: seq<Tombstone>)
    ensures selfId in FromList(tombstones, TombstoneKey) <==> !NotTombstoned(selfId, tombstones)
  {
    FromListKeyed(tombstones, TombstoneKey);
    FromListHasAll(tombstones, TombstoneKey);
  }

  /** The element of a list that none with the same key comes after. */
  predicate LastOfKey<V>(s: seq<V>, key: V -> string, i: nat)
    requires i < |s|
  {
    forall j :: i < j < |s| ==> key(s[j]) != key(s[i])
  }

  lemma {:induction false} FromListLast<V>(s: seq<V>, key: V -> string, i: nat)
    requires i < |s| && LastOfKey(s, key, i)
    ensures key(s[i]) in FromList(s, key) && FromList(s, key)[key(s[i])] == s[i]
    decreases |s|
  {
    var n := |s| - 1;
    if i < n {
      assert key(s[n]) != key(s[i]);
      FromListLast(s[..n], key, i);
    }
  }

  /** A roster is adopted exactly if the vouch names this device, verifies under the introducer's key, and no tombstone
      handed over is this device's. The joiner is then a member as the vouch describes it, and the introducer has a record,
      its own if none was handed over; nothing is held or counted. */
  lemma AdoptedExactlyWhen(
    c: Platform, selfId: DeviceId, introducer: DeviceRecord, devices: seq<DeviceRecord>, tombstones: seq<Tombstone>,
    epoch: nat, vouch: Introduce)
    ensures var adopted := Adopt(c, selfId, introducer, devices, tombstones, epoch, vouch);
            && (adopted.Ok? <==>
                  && vouch.subject.deviceId == selfId && c.usable(introducer.identityPk)
                  && c.vouchVerifies(introducer.identityPk, vouch) && NotTombstoned(selfId, tombstones))
            && (adopted.Ok? ==>
                  var r := adopted.value.outcome;
                  && r.selfId == selfId && r.epoch == epoch && r.held == map[] && r.churn == map[] && r.removedMe == {}
                  && selfId in r.devices && introducer.deviceId in r.devices
                  && Effects.FiledFrom(r.devices[selfId], vouch.subject, introducer.deviceId)
                  && (selfId != introducer.deviceId && (forall d :: d in devices ==> d.deviceId != introducer.deviceId) ==>
                        r.devices[introducer.deviceId] == introducer))
  {
    TombstonedExactly(selfId, tombstones);
    FromListKeyed(devices, RecordKey);
  }

  /** Everyone else is on record as in the last record handed over of them, and every one handed over is written down as
      joined, in order, and the joiner last. */
  lemma AdoptedRecords(
    c: Platform, selfId: DeviceId, introducer: DeviceRecord, devices: seq<DeviceRecord>, tombstones: seq<Tombstone>,
    epoch: nat, vouch: Introduce)
    requires Adopt(c, selfId, introducer, devices, tombstones, epoch, vouch).Ok?
    ensures var (r, ledger) := (Adopt(c, selfId, introducer, devices, tombstones, epoch, vouch).value.outcome,
                                Adopt(c, selfId, introducer, devices, tombstones, epoch, vouch).value.ledger);
            && (forall i :: 0 <= i < |devices| && LastOfKey(devices, RecordKey, i) && devices[i].deviceId != selfId ==>
                  devices[i].deviceId in r.devices && r.devices[devices[i].deviceId] == devices[i])
            && (forall i :: 0 <= i < |tombstones| && LastOfKey(tombstones, TombstoneKey, i) ==>
                  tombstones[i].subject in r.tombstones && r.tombstones[tombstones[i].subject] == tombstones[i])
            && |ledger| == |devices| + 1 && ledger[|devices|] == LedgerEntry(selfId, DeviceJoined(introducer.deviceId))
            && (forall i :: 0 <= i < |devices| ==>
                  ledger[i] == LedgerEntry(devices[i].deviceId, DeviceJoined(devices[i].introducedBy)))
  {
    forall i | 0 <= i < |devices| && LastOfKey(devices, RecordKey, i)
      ensures devices[i].deviceId in FromList(devices, RecordKey)
      ensures FromList(devices, RecordKey)[devices[i].deviceId] == devices[i]
    {
      FromListLast(devices, RecordKey, i);
    }
    forall i | 0 <= i < |tombstones| && LastOfKey(tombstones, TombstoneKey, i)
      ensures tombstones[i].subject in FromList(tombstones, TombstoneKey)
      ensures FromList(tombstones, TombstoneKey)[tombstones[i].subject] == tombstones[i]
    {
      FromListLast(tombstones, TombstoneKey, i);
    }
    AdoptLedgerAt(devices);
  }

  lemma {:induction false} AdoptLedgerAt(devices: seq<DeviceRecord>)
    ensures var ledger := AdoptLedger(devices);
            && |ledger| == |devices|
            && forall i :: 0 <= i < |devices| ==>
                 ledger[i] == LedgerEntry(devices[i].deviceId, DeviceJoined(devices[i].introducedBy))
  {
    if devices != [] {
      AdoptLedgerAt(devices[..|devices| - 1]);
    }
  }
}
