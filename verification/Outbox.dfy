/** The outbox as the source keeps it: a queue and a counter, changed in place. */
module OutboxObject {
  import opened Wrappers
  import opened StringOrder
  import opened OutboxModel

  lemma PurgeAllStep(p: Pass, dead: seq<ChannelId>, k: nat)
    requires k < |dead|
    ensures PurgeAll(p, dead[..k + 1]) == Purge(PurgeAll(p, dead[..k]), dead[k])
  {
    assert dead[..k + 1][..k] == dead[..k];
  }

  lemma RetainStep(rule: Rule, s: seq<Entry>, i: nat)
    requires i < |s|
    ensures Kept(rule, s[..i + 1]) == Kept(rule, s[..i]) + if Hits(rule, s[i]) then [] else [s[i]]
    ensures Lost(rule, s[..i + 1]) == Lost(rule, s[..i]) + if Hits(rule, s[i]) then [s[i]] else []
  {
    assert s[..i + 1][..i] == s[..i];
  }

  lemma DropAllAppend(s: seq<Entry>, e: Entry, reason: DropReason)
    ensures DropAll(s + [e], reason) == DropAll(s, reason) + [DropAs(e, reason)]
  {
    assert (s + [e])[..|s|] == s;
  }

  predicate LacksSession(d: Deferred) {
    d.reason == SessionLost || d.reason == NoSession
  }

  /** The peers whose sessions must be set up again before the next pass: each once, in order. */
  method NeedsSession(report: Report) returns (peers: seq<string>)
    ensures Sorted(peers)
    ensures forall peer :: peer in peers <==>
              exists d :: d in report.deferred && (d.reason.SessionLost? || d.reason.NoSession?) && d.peer == peer
  {
    var found: set<string> := {};
    for i := 0 to |report.deferred|
      invariant forall peer :: peer in found <==>
                  exists k :: 0 <= k < i && LacksSession(report.deferred[k]) && report.deferred[k].peer == peer
    {
      if LacksSession(report.deferred[i]) {
        found := found + {report.deferred[i].peer};
      }
    }
    peers := SortedKeys(found);
  }

  class Outbox {
    var entries: seq<Entry>
    var nextId: nat

    constructor ()
      ensures Value() == Box([], 0)
    {
      entries, nextId := [], 0;
    }

    function Value(): Box
      reads this
    {
      Box(entries, nextId)
    }

    /** Counts the entries addressed to one peer. */
    method PendingFor(peer: string) returns (n: nat)
      ensures n == |Lost(OfPeer(peer), entries)|
    {
      n := 0;
      for i := 0 to |entries|
        invariant n == |Lost(OfPeer(peer), entries[..i])|
      {
        assert entries[..i + 1][..i] == entries[..i];
        if entries[i].peer == peer {
          n := n + 1;
        }
      }
      assert entries[..|entries|] == entries;
    }

    /** How many messages a channel holds. */
    method QueuedOn(channel: ChannelId) returns (n: nat)
      ensures n == |Lost(OnChannel(channel), entries)|
    {
      n := 0;
      for i := 0 to |entries|
        invariant n == |Lost(OnChannel(channel), entries[..i])|
      {
        assert entries[..i + 1][..i] == entries[..i];
        if entries[i].channel == channel {
          n := n + 1;
        }
      }
      assert entries[..|entries|] == entries;
    }

    /** The first entry a rule is about. */
    method Position(rule: Rule) returns (index: Option<nat>)
      ensures index == FirstHit(rule, entries)
    {
      index := None;
      for i := 0 to |entries|
        invariant index == FirstHit(rule, entries[..i])
      {
        assert entries[..i + 1][..i] == entries[..i];
        if index.None? && Hits(rule, entries[i]) {
          index := Some(i);
        }
      }
      assert entries[..|entries|] == entries;
    }

    method RemoveAt(index: nat, reason: DropReason) returns (gone: Dropped)
      requires index < |entries|
      modifies this
      ensures Value() == Box(WithoutIndex(old(entries), index), old(nextId))
      ensures gone == DropAs(old(entries)[index], reason)
    {
      gone := DropAs(entries[index], reason);
      entries := entries[..index] + entries[index + 1..];
    }

    /** A message takes the place of its twin, or joins the end, pushing out the oldest perishable entry of a full
        channel, or is refused. */
    method Enqueue(message: OutboxModel.Enqueue, now: nat) returns (outcome: EnqueueOutcome)
      modifies this
      ensures (Value(), outcome) == Enqueued(old(Value()), message, now)
    {
      var superseded: Option<Dropped> := None;
      if message.coalesceKey.Some? {
        var twin := Position(SameKey(message.channel, message.coalesceKey.value));
        if twin.Some? {
          var gone := RemoveAt(twin.value, Superseded);
          superseded := Some(gone);
        }
      }
      if superseded.None? {
        var queued := QueuedOn(message.channel);
        if queued >= MAX_QUEUED_PER_CHANNEL {
          var oldest := Position(StaleOn(message.channel));
          if oldest.None? {
            return Full(message.channel);
          }
          var gone := RemoveAt(oldest.value, Expired);
          superseded := Some(gone);
        }
      }
      var id := nextId;
      nextId := nextId + 1;
      entries := entries + [NewEntry(id, message, now)];
      outcome := Queued(id, superseded);
    }

    /** Keep what the rule is not about; report the rest. */
    method Retain(rule: Rule, reason: DropReason) returns (gone: seq<Dropped>)
      modifies this
      ensures entries == Kept(rule, old(entries)) && nextId == old(nextId)
      ensures gone == DropAll(Lost(rule, old(entries)), reason)
    {
      var kept: seq<Entry> := [];
      ghost var lost: seq<Entry> := [];
      gone := [];
      for i := 0 to |entries|
        invariant entries == old(entries) && nextId == old(nextId)
        invariant kept == Kept(rule, entries[..i])
        invariant lost == Lost(rule, entries[..i]) && gone == DropAll(lost, reason)
      {
        RetainStep(rule, entries, i);
        if Hits(rule, entries[i]) {
          DropAllAppend(lost, entries[i], reason);
          lost := lost + [entries[i]];
          gone := gone + [DropAs(entries[i], reason)];
        } else {
          kept := kept + [entries[i]];
        }
      }
      assert entries[..|entries|] == entries;
      entries := kept;
    }

    /** The indices that are due, as they lie in the queue. */
    method AllDue(now: nat) returns (due: seq<nat>)
      ensures due == DueIndices(entries, now)
    {
      due := [];
      for i := 0 to |entries|
        invariant due == DueIndices(entries[..i], now)
      {
        assert entries[..i + 1][..i] == entries[..i];
        if entries[i].notBefore <= now {
          due := due + [i];
        }
      }
      assert entries[..|entries|] == entries;
    }

    /** What one pass will visit: due indices by urgency, age and id, no more than the budget. */
    method DueNow(now: nat, budget: nat) returns (due: seq<nat>)
      ensures due == SendOrder(entries, now, budget)
    {
      due := AllDue(now);
      due := SortByKey(entries, due);
      if budget < |due| {
        due := due[..budget];
      }
    }

    /** Count a failed attempt against an entry and back it off. */
    method BackOff(index: nat, now: nat)
      requires index < |entries|
      modifies this
      ensures entries == old(entries)[index := BackedOff(old(entries)[index], now)] && nextId == old(nextId)
    {
      var attempts := entries[index].attempts + 1;
      entries := entries[index := entries[index].(attempts := attempts, notBefore := now + BackoffFor(attempts))];
    }

    /** Seal and send one entry, unless its channel has already failed in this pass. */
    method Attempt(p: Pass, slot: nat, index: nat, o: Oracle, now: nat) returns (q: Pass)
      requires index < |entries| && p.entries == entries
      modifies this
      ensures q == Turn(p, slot, index, o, now) && entries == q.entries && nextId == old(nextId)
    {
      var entry := entries[index];
      var report, sentIds, droppedIds, failed, trace := p.report, p.sentIds, p.droppedIds, p.failed, p.trace;
      if entry.channel in failed {
        report := report.(deferred := report.deferred
          + [Deferred(entry.id, entry.channel, entry.peer, failed[entry.channel], entry.attempts)]);
        return Pass(entries, report, sentIds, droppedIds, failed, trace);
      }
      var sealing := o.seal(|trace|, entry.peer, entry.plaintext);
      trace := trace + [Seal(slot, entry.id, entry.peer, entry.plaintext, sealing)];
      if !sealing.Sealed? {
        report := report.(deferred := report.deferred
          + [Deferred(entry.id, entry.channel, entry.peer, SealReason(sealing), entry.attempts + 1)]);
        BackOff(index, now);
        return Pass(entries, report, sentIds, droppedIds, failed, trace);
      }
      var outbound := Outbound(sealing.frame, entry.highPriority, entry.ttl);
      var posting := o.post(|trace|, entry.channel, outbound);
      trace := trace + [Post(slot, entry.id, entry.channel, outbound, posting)];
      match posting {
        case Accepted(messageId) =>
          var queuedFor := if now < entry.enqueuedAt then 0 else now - entry.enqueuedAt;
          report := report.(sent := report.sent + [Sent(entry.id, entry.channel, entry.peer, messageId, queuedFor)]);
          sentIds := sentIds + [entry.id];
        case RetiredError =>
          report := report.(dropped := report.dropped + [DropAs(entry, ChannelRetired)]);
          droppedIds := droppedIds + [entry.id];
          failed := failed[entry.channel := NoSession];
        case UnknownChannelError =>
          report := report.(dropped := report.dropped + [DropAs(entry, ChannelUnknown)]);
          droppedIds := droppedIds + [entry.id];
          failed := failed[entry.channel := NoSession];
        case BackendError(detail) =>
          report := report.(deferred := report.deferred
            + [Deferred(entry.id, entry.channel, entry.peer, Unreachable(detail), entry.attempts + 1)]);
          failed := failed[entry.channel := Unreachable(detail)];
          BackOff(index, now);
      }
      return Pass(entries, report, sentIds, droppedIds, failed, trace);
    }

    /** Take the backlog of one dead channel off the queue. */
    method DropBacklog(p: Pass, channel: ChannelId) returns (q: Pass)
      requires p.entries == entries
      modifies this
      ensures q == Purge(p, channel) && entries == q.entries && nextId == old(nextId)
    {
      var rule := Backlog(channel, p.droppedIds);
      var reason := BurialReason(p.report.dropped, channel);
      var gone := Retain(rule, reason);
      var deferred := KeptDeferred(p.report.deferred, DroppedIds(gone));
      assert DroppedIds(gone) == Ids(Lost(rule, p.entries));
      q := p.(entries := entries,
              report := p.report.(dropped := p.report.dropped + gone, deferred := deferred));
    }

    /** The sending loop of a pass. */
    method SendDue(start: Pass, due: seq<nat>, o: Oracle, now: nat) returns (p: Pass)
      requires start.entries == entries && Indices(entries, due)
      modifies this
      ensures p == Turns(start, due, o, now) && entries == p.entries && nextId == old(nextId)
    {
      p := start;
      for k := 0 to |due|
        invariant nextId == old(nextId)
        invariant p == Turns(start, due[..k], o, now) && p.entries == entries
      {
        assert due[..k + 1][..k] == due[..k];
        p := Attempt(p, k, due[k], o, now);
      }
      assert due[..|due|] == due;
    }

    /** Purges the dead channels one after another, by name. */
    method DropBacklogs(sending: Pass) returns (p: Pass)
      requires sending.entries == entries
      modifies this
      ensures p == PurgeAll(sending, SortedKeys(DeadChannels(sending.failed)))
      ensures entries == p.entries && nextId == old(nextId)
    {
      p := sending;
      var dead := SortedKeys(DeadChannels(sending.failed));
      for k := 0 to |dead|
        invariant nextId == old(nextId)
        invariant p == PurgeAll(sending, dead[..k]) && p.entries == entries
      {
        PurgeAllStep(sending, dead, k);
        p := DropBacklog(p, dead[k]);
      }
      assert dead[..|dead|] == dead;
    }

    /** One pass: expiry, the sending loop, the purge of dead channels, the final sweep. */
    method Drain(o: Oracle, now: nat, budget: nat) returns (report: Report, trace: seq<Call>)
      modifies this
      ensures Value() == Drained(old(Value()), o, now, budget)
      ensures report == DrainReport(old(Value()), o, now, budget)
      ensures trace == DrainTrace(old(Value()), o, now, budget)
    {
      var stale := Retain(ExpiredAt(now), Expired);
      var due := DueNow(now, budget);
      var p := Pass(entries, Report([], stale, []), [], [], map[], []);
      p := SendDue(p, due, o, now);
      trace := p.trace;
      p := DropBacklogs(p);
      var _ := Retain(WithId(p.sentIds + p.droppedIds), Superseded);
      report := p.report;
    }

    /** A peer's entries leave together, each of them reported. */
    method ForgetPeer(peer: string) returns (dropped: seq<Dropped>)
      modifies this
      ensures Value() == Forgotten(old(Value()), peer)
      ensures dropped == ForgottenReport(old(Value()), peer)
    {
      dropped := Retain(OfPeer(peer), PeerForgotten);
    }

    /** What restoring it gives is this queue, and no other snapshot gives it. */
    method Snapshot() returns (s: OutboxModel.Snapshot)
      ensures forall stored :: Import(stored) == Ok(Value()) <==> stored == s
    {
      s := OutboxModel.Snapshot(SNAPSHOT_VERSION, nextId, entries);
    }

    /** Takes over the stored queue and counter, or nothing at all if the version is another. */
    method Restore(s: OutboxModel.Snapshot) returns (result: Result<(), SnapshotError>)
      modifies this
      ensures result.Ok? <==> Import(s).Ok?
      ensures result.Ok? ==> Value() == Import(s).value
      ensures result.Err? ==> result.error == Import(s).error && Value() == old(Value())
    {
      if s.v != SNAPSHOT_VERSION {
        return Err(UnsupportedVersion(s.v));
      }
      entries, nextId := s.entries, s.nextId;
      result := Ok(());
    }
  }
}
