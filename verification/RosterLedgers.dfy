/** What a sync and a server's list write down: every entry, and no other. */
module RosterLedgers {
  import opened Wrappers
  import opened RosterModel

  // ---- syncs ----

  predicate Reported(reported: seq<SyncDevice>, d: DeviceId) {
    exists i :: 0 <= i < |reported| && reported[i].deviceId == d
  }

  lemma ReportedBack(reported: seq<SyncDevice>, d: DeviceId)
    requires reported != []
    ensures Reported(reported, d) <==>
              Reported(reported[..|reported| - 1], d) || reported[|reported| - 1].deviceId == d
  {
    var n := |reported| - 1;
    if Reported(reported[..n], d) {
      var i :| 0 <= i < n && reported[..n][i].deviceId == d;
      assert reported[i].deviceId == d;
    }
    if Reported(reported, d) && reported[n].deviceId != d {
      var i :| 0 <= i < |reported| && reported[i].deviceId == d;
      assert reported[..n][i].deviceId == d;
    }
  }

  /** A device the merge has buried. */
  predicate NewlyBuried(r: Roster, q: Roster, d: DeviceId) {
    d in q.tombstones && d !in r.tombstones
  }

  /** An entry is about a stranger reported, a burial by the sender, an epoch, or a split. */
  predicate MergeEntry(r: Roster, q: Roster, reported: seq<SyncDevice>, sender: DeviceId, e: LedgerEntry) {
    match e.event
    case VouchRejected => Reported(reported, e.peer) && e.peer !in r.devices && e.peer !in r.tombstones
    case DeviceRemoved(signer, reason) => signer == sender && reason == RemovedByMember && NewlyBuried(r, q, e.peer)
    case EpochBumped(_) => NewlyBuried(r, q, e.peer)
    case FamilySplit(counterpart) => counterpart == e.peer
    case _ => false
  }

  /** And each stranger reported and each burial has its entry. */
  ghost predicate MergeWritten(r: Roster, g: Merge, reported: seq<SyncDevice>, sender: DeviceId) {
    && g.r.devices.Keys == r.devices.Keys && r.tombstones.Keys <= g.r.tombstones.Keys
    && g.r.tombstones.Keys <= r.tombstones.Keys + r.devices.Keys
    && (forall e :: e in g.ledger ==> MergeEntry(r, g.r, reported, sender, e))
    && (forall d :: Reported(reported, d) && d !in r.devices && d !in r.tombstones ==>
          LedgerEntry(d, VouchRejected) in g.ledger)
    && (forall d :: NewlyBuried(r, g.r, d) ==> LedgerEntry(d, DeviceRemoved(sender, RemovedByMember)) in g.ledger)
    && (g.r.epoch > r.epoch ==> exists d :: LedgerEntry(d, EpochBumped(g.r.epoch)) in g.ledger)
  }

  lemma MergeOneWritten(
    r: Roster, g: Merge, before: seq<SyncDevice>, rep: SyncDevice, reported: seq<SyncDevice>, epoch: nat,
    sender: DeviceId)
    requires MergeWritten(r, g, before, sender)
    requires forall d :: Reported(reported, d) <==> Reported(before, d) || rep.deviceId == d
    ensures MergeWritten(r, MergeOne(g, rep, epoch, sender), reported, sender)
  {
    var h := MergeOne(g, rep, epoch, sender);
    EntriesKept(r, g, before, rep, reported, epoch, sender);
    assert g.ledger <= h.ledger;
    assert forall e :: e in g.ledger ==> e in h.ledger;
    if h.r.epoch > r.epoch {
      EpochWritten(r, g, rep, epoch, sender);
    }
  }

  lemma EpochWritten(r: Roster, g: Merge, rep: SyncDevice, epoch: nat, sender: DeviceId)
    requires g.r.epoch > r.epoch ==> exists d :: LedgerEntry(d, EpochBumped(g.r.epoch)) in g.ledger
    requires MergeOne(g, rep, epoch, sender).r.epoch > r.epoch
    ensures var h := MergeOne(g, rep, epoch, sender); exists d :: LedgerEntry(d, EpochBumped(h.r.epoch)) in h.ledger
  {
    var h := MergeOne(g, rep, epoch, sender);
    if h.r.epoch == g.r.epoch {
      var d :| LedgerEntry(d, EpochBumped(g.r.epoch)) in g.ledger;
      assert g.ledger <= h.ledger;
      assert LedgerEntry(d, EpochBumped(h.r.epoch)) in h.ledger;
    } else {
      assert h.ledger[|g.ledger| + 1] == LedgerEntry(rep.deviceId, EpochBumped(h.r.epoch));
    }
  }

  lemma EntriesKept(
    r: Roster, g: Merge, before: seq<SyncDevice>, rep: SyncDevice, reported: seq<SyncDevice>, epoch: nat,
    sender: DeviceId)
    requires MergeWritten(r, g, before, sender)
    requires forall d :: Reported(reported, d) <==> Reported(before, d) || rep.deviceId == d
    ensures var h := MergeOne(g, rep, epoch, sender);
            forall e :: e in h.ledger ==> MergeEntry(r, h.r, reported, sender, e)
  {
    var h := MergeOne(g, rep, epoch, sender);
    forall e | e in h.ledger ensures MergeEntry(r, h.r, reported, sender, e) {
      if e in g.ledger {
        assert MergeEntry(r, g.r, before, sender, e);
      }
    }
  }

  lemma {:induction false} MergeAllWritten(r: Roster, reported: seq<SyncDevice>, epoch: nat, sender: DeviceId)
    ensures MergeWritten(r, MergeAll(r, reported, epoch, sender), reported, sender)
  {
    if reported != [] {
      var n := |reported| - 1;
      MergeAllWritten(r, reported[..n], epoch, sender);
      forall d ensures Reported(reported, d) <==> Reported(reported[..n], d) || reported[n].deviceId == d {
        ReportedBack(reported, d);
      }
      MergeOneWritten(r, MergeAll(r, reported[..n], epoch, sender), reported[..n], reported[n], reported, epoch, sender);
    }
  }

  /** A sync that is merged writes down each stranger it reports and each device it buries, by its sender; and the epoch if
      it was raised. One that is not writes nothing. */
  lemma SyncWrites(c: Platform, r: Roster, m: SyncMessage, sender: DeviceId)
    ensures var (q, a) := ReceiveSync(c, r, m, sender);
            if !a.outcome.Merged? then a.ledger == []
            else
              && (forall d :: LedgerEntry(d, VouchRejected) in a.ledger <==>
                    Reported(m.devices, d) && d !in r.devices && d !in r.tombstones)
              && (forall d, signer, reason :: LedgerEntry(d, DeviceRemoved(signer, reason)) in a.ledger <==>
                    signer == sender && reason == RemovedByMember && NewlyBuried(r, q, d))
              && (q.epoch > r.epoch ==> exists d :: LedgerEntry(d, EpochBumped(q.epoch)) in a.ledger)
  {
    var (q, a) := ReceiveSync(c, r, m, sender);
    if a.outcome.Merged? {
      MergeAllWritten(r, m.devices, m.epoch, sender);
      SyncLedgerIs(c, r, m, sender);
      FromMerge(r, MergeAll(r, m.devices, m.epoch, sender), q, m, sender, a.ledger);
    }
  }

  lemma SyncLedgerIs(c: Platform, r: Roster, m: SyncMessage, sender: DeviceId)
    requires ReceiveSync(c, r, m, sender).1.outcome.Merged?
    ensures var (q, a) := ReceiveSync(c, r, m, sender);
            var g := MergeAll(r, m.devices, m.epoch, sender);
            && q == g.r.(epoch := q.epoch)
            && ((q.epoch == g.r.epoch && a.ledger == g.ledger)
                || (q.epoch == m.epoch && a.ledger == g.ledger + [LedgerEntry(sender, EpochBumped(m.epoch))]))
  {
  }

  lemma FromMerge(r: Roster, g: Merge, q: Roster, m: SyncMessage, sender: DeviceId, ledger: seq<LedgerEntry>)
    requires MergeWritten(r, g, m.devices, sender) && q == g.r.(epoch := q.epoch)
    requires (q.epoch == g.r.epoch && ledger == g.ledger)
             || (q.epoch == m.epoch && ledger == g.ledger + [LedgerEntry(sender, EpochBumped(m.epoch))])
    ensures forall d :: LedgerEntry(d, VouchRejected) in ledger <==>
                          Reported(m.devices, d) && d !in r.devices && d !in r.tombstones
    ensures forall d, signer, reason :: LedgerEntry(d, DeviceRemoved(signer, reason)) in ledger <==>
                                          signer == sender && reason == RemovedByMember && NewlyBuried(r, q, d)
    ensures q.epoch > r.epoch ==> exists d :: LedgerEntry(d, EpochBumped(q.epoch)) in ledger
  {
    if ledger != g.ledger {
      assert ledger[|g.ledger|] == LedgerEntry(sender, EpochBumped(m.epoch));
    }
  }

  // ---- the server's list ----

  predicate Listed(listed: seq<ServerDevice>, d: DeviceId) {
    exists i :: 0 <= i < |listed| && listed[i].deviceId == d
  }

  lemma ListedBack(listed: seq<ServerDevice>, d: DeviceId)
    requires listed != []
    ensures Listed(listed, d) <==> Listed(listed[..|listed| - 1], d) || listed[|listed| - 1].deviceId == d
  {
    var n := |listed| - 1;
    if Listed(listed[..n], d) {
      var i :| 0 <= i < n && listed[..n][i].deviceId == d;
      assert listed[i].deviceId == d;
    }
    if Listed(listed, d) && listed[n].deviceId != d {
      var i :| 0 <= i < |listed| && listed[i].deviceId == d;
      assert listed[..n][i].deviceId == d;
    }
  }

  predicate TakenOut(r: Roster, q: Roster, d: DeviceId) {
    IsActive(r, d) && !IsActive(q, d)
  }

  /** The entries are exactly one for each stranger listed and one, in the server's name, for each device taken out. */
  ghost predicate ListWritten(r: Roster, q: Roster, listed: seq<ServerDevice>, ledger: seq<LedgerEntry>) {
    && q.devices.Keys == r.devices.Keys
    && forall e :: e in ledger <==>
         || (e.event == UnvouchedDeviceListed && Listed(listed, e.peer) && e.peer !in r.devices)
         || (e.event == DeviceRemoved("server", RemovedByMember) && TakenOut(r, q, e.peer))
  }

  lemma ListOneWritten(r: Roster, g: Reconciliation, before: seq<ServerDevice>, one: ServerDevice, listed: seq<ServerDevice>)
    requires ListWritten(r, g.r, before, g.ledger) && forall d :: IsActive(g.r, d) ==> IsActive(r, d)
    requires forall d :: Listed(listed, d) <==> Listed(before, d) || one.deviceId == d
    ensures var h := ReconcileOne(g, one);
            ListWritten(r, h.r, listed, h.ledger) && forall d :: IsActive(h.r, d) ==> IsActive(r, d)
  {
  }

  lemma {:induction false} ListWrites(r: Roster, listed: seq<ServerDevice>)
    ensures var g := ReconcileAll(r, listed);
            ListWritten(r, g.r, listed, g.ledger) && forall d :: IsActive(g.r, d) ==> IsActive(r, d)
  {
    if listed != [] {
      var n := |listed| - 1;
      ListWrites(r, listed[..n]);
      forall d ensures Listed(listed, d) <==> Listed(listed[..n], d) || listed[n].deviceId == d {
        ListedBack(listed, d);
      }
      ListOneWritten(r, ReconcileAll(r, listed[..n]), listed[..n], listed[n], listed);
    }
  }

  /** Taking in the server's list writes down each stranger listed and each device taken out, and nothing else. */
  lemma ReconcileWrites(r: Roster, listed: seq<ServerDevice>)
    ensures var (q, a) := Reconcile(r, listed); ListWritten(r, q, listed, a.ledger)
  {
    ListWrites(r, listed);
  }
}
