/** What a drain's report says of messages dropped and put off, against what was answered and what is left. */
module OutboxLedger {
  import opened Wrappers
  import opened StringOrder
  import opened OutboxModel
  import opened OutboxQueue
  import opened OutboxOrder
  import opened OutboxPass
  import opened OutboxConservation
  import opened OutboxDiscipline
  import opened OutboxReports

  // ---- why a message was dropped ----

  /** The reason an answer that kills a channel gives for the drops it causes. */
  function KillReason(c: Call): DropReason
    requires Killed(c)
  {
    if c.postAnswer.RetiredError? then ChannelRetired else ChannelUnknown
  }

  /** The transport gave that reason for the message's channel in this pass. */
  ghost predicate Justified(trace: seq<Call>, d: Dropped) {
    exists i :: 0 <= i < |trace| && Killed(trace[i]) && trace[i].channel == d.channel && d.reason == KillReason(trace[i])
  }

  ghost predicate KillShown(dropped: seq<Dropped>, c: Call)
    requires Killed(c)
  {
    exists d :: d in dropped && d.channel == c.channel && d.reason == KillReason(c)
  }

  /** Past the expired, each drop has its answer; and each answer that kills has its drop. */
  ghost predicate DropsTrue(stale: nat, p: Pass) {
    && stale <= |p.report.dropped|
    && (forall k :: 0 <= k < stale ==> p.report.dropped[k].reason == Expired)
    && (forall k :: stale <= k < |p.report.dropped| ==> Justified(p.trace, p.report.dropped[k]))
    && (forall i :: 0 <= i < |p.trace| && Killed(p.trace[i]) ==> KillShown(p.report.dropped, p.trace[i]))
  }

  lemma JustifiedExtends(trace: seq<Call>, c: Call, d: Dropped)
    requires Justified(trace, d)
    ensures Justified(trace + [c], d)
  {
    var i :| 0 <= i < |trace| && Killed(trace[i]) && trace[i].channel == d.channel && d.reason == KillReason(trace[i]);
    assert (trace + [c])[i] == trace[i];
  }

  lemma QuietDrops(stale: nat, p: Pass, c: Call)
    requires DropsTrue(stale, p) && !Killed(c)
    ensures DropsTrue(stale, Note(p, c))
  {
    forall k | stale <= k < |p.report.dropped| ensures Justified(p.trace + [c], p.report.dropped[k]) {
      JustifiedExtends(p.trace, c, p.report.dropped[k]);
    }
  }

  lemma BuryDrops(stale: nat, p: Pass, c: Call, e: Entry)
    requires DropsTrue(stale, p) && Killed(c) && c.channel == e.channel
    ensures DropsTrue(stale, Bury(Note(p, c), e, KillReason(c)))
  {
    var q := Bury(Note(p, c), e, KillReason(c));
    var last := DropAs(e, KillReason(c));
    assert q.report.dropped == p.report.dropped + [last] && q.trace == p.trace + [c];
    assert q.trace[|p.trace|] == c;
    forall k | stale <= k < |q.report.dropped| ensures Justified(q.trace, q.report.dropped[k]) {
      if k < |p.report.dropped| {
        JustifiedExtends(p.trace, c, p.report.dropped[k]);
      }
    }
    forall i | 0 <= i < |q.trace| && Killed(q.trace[i]) ensures KillShown(q.report.dropped, q.trace[i]) {
      if i < |p.trace| {
        var d :| d in p.report.dropped && d.channel == p.trace[i].channel && d.reason == KillReason(p.trace[i]);
        assert d in q.report.dropped;
      } else {
        assert last in q.report.dropped;
      }
    }
  }

  lemma PostedDrops(stale: nat, p: Pass, c: Call, x: nat, now: nat)
    requires DropsTrue(stale, p) && c.Post? && x < |p.entries| && c.channel == p.entries[x].channel
    ensures DropsTrue(stale, Posted(Note(p, c), x, c.postAnswer, now))
  {
    if Killed(c) {
      BuryDrops(stale, p, c, p.entries[x]);
    } else {
      QuietDrops(stale, p, c);
    }
  }

  lemma TurnDrops(stale: nat, p: Pass, slot: nat, x: nat, o: Oracle, now: nat)
    requires DropsTrue(stale, p) && x < |p.entries|
    ensures DropsTrue(stale, Turn(p, slot, x, o, now))
  {
    var e := p.entries[x];
    if e.channel !in p.failed {
      var sealing := o.seal(|p.trace|, e.peer, e.plaintext);
      var c := Seal(slot, e.id, e.peer, e.plaintext, sealing);
      QuietDrops(stale, p, c);
      if sealing.Sealed? {
        var q := Note(p, c);
        var outbound := Outbound(sealing.frame, e.highPriority, e.ttl);
        PostedDrops(stale, q, Post(slot, e.id, e.channel, outbound, o.post(|q.trace|, e.channel, outbound)), x, now);
      }
    }
  }

  lemma {:induction false} TurnsDropsTrue(stale: nat, p: Pass, order: seq<nat>, o: Oracle, now: nat)
    requires DropsTrue(stale, p) && Indices(p.entries, order)
    ensures DropsTrue(stale, Turns(p, order, o, now))
  {
    if order != [] {
      var n := |order| - 1;
      TurnsDropsTrue(stale, p, order[..n], o, now);
      TurnDrops(stale, Turns(p, order[..n], o, now), n, order[n], o, now);
    }
  }

  /** The purge of a dead channel finds the reason the transport gave for it. */
  lemma BurialJustified(stale: nat, p: Pass, channel: ChannelId, e: Entry)
    requires DropsTrue(stale, p) && TableTrue(p) && Dead(p, channel) && e.channel == channel
    ensures Justified(p.trace, DropAs(e, BurialReason(p.report.dropped, channel)))
  {
    assert FailedOn(p.trace, channel);
    var i :| 0 <= i < |p.trace| && Failed(p.trace[i]) && p.trace[i].channel == channel;
    assert Killed(p.trace[i]) && KillShown(p.report.dropped, p.trace[i]);
    if d :| d in p.report.dropped && d.channel == channel && d.reason == ChannelRetired {
      var k :| 0 <= k < |p.report.dropped| && p.report.dropped[k] == d;
      assert Justified(p.trace, p.report.dropped[k]);
    }
  }

  lemma PurgeDrops(stale: nat, p: Pass, channel: ChannelId)
    requires DropsTrue(stale, p) && TableTrue(p) && Dead(p, channel)
    ensures DropsTrue(stale, Purge(p, channel)) && TableTrue(Purge(p, channel))
  {
    var rule := Backlog(channel, p.droppedIds);
    var gone := Lost(rule, p.entries);
    var reason := BurialReason(p.report.dropped, channel);
    GoneJustified(stale, p, channel, gone, reason);
    MoreDrops(stale, p, DropAll(gone, reason), Purge(p, channel));
    SameTable(p, Purge(p, channel));
  }

  lemma SameTable(p: Pass, q: Pass)
    requires TableTrue(p) && q.trace == p.trace && q.failed == p.failed
    ensures TableTrue(q)
  {
  }

  lemma GoneJustified(stale: nat, p: Pass, channel: ChannelId, gone: seq<Entry>, reason: DropReason)
    requires DropsTrue(stale, p) && TableTrue(p) && Dead(p, channel) && reason == BurialReason(p.report.dropped, channel)
    requires forall e :: e in gone ==> e.channel == channel
    ensures forall k :: 0 <= k < |gone| ==> Justified(p.trace, DropAll(gone, reason)[k])
  {
    forall k | 0 <= k < |gone| ensures Justified(p.trace, DropAll(gone, reason)[k]) {
      assert gone[k] in gone;
      BurialJustified(stale, p, channel, gone[k]);
    }
  }

  lemma MoreDrops(stale: nat, p: Pass, more: seq<Dropped>, q: Pass)
    requires DropsTrue(stale, p) && forall k :: 0 <= k < |more| ==> Justified(p.trace, more[k])
    requires q.report.dropped == p.report.dropped + more && q.trace == p.trace
    ensures DropsTrue(stale, q)
  {
    forall i | 0 <= i < |q.trace| && Killed(q.trace[i]) ensures KillShown(q.report.dropped, q.trace[i]) {
      var d :| d in p.report.dropped && d.channel == p.trace[i].channel && d.reason == KillReason(p.trace[i]);
      assert d in q.report.dropped;
    }
  }

  lemma {:induction false} PurgeAllDropsTrue(stale: nat, p: Pass, dead: seq<ChannelId>)
    requires DropsTrue(stale, p) && TableTrue(p) && forall c :: c in dead ==> Dead(p, c)
    ensures DropsTrue(stale, PurgeAll(p, dead)) && TableTrue(PurgeAll(p, dead))
  {
    if dead != [] {
      var n := |dead| - 1;
      assert dead[n] in dead && forall c :: c in dead[..n] ==> c in dead;
      PurgeAllDropsTrue(stale, p, dead[..n]);
      PurgeAllKeepsLists(p, dead[..n]);
      PurgeDrops(stale, PurgeAll(p, dead[..n]), dead[n]);
    }
  }

  /** Every drop a pass reports is of an expired message, those first, or has the reason the transport gave in that pass
      for the message's channel; and every answer that kills a channel is reported on. */
  lemma DroppedReasonsExact(box: Box, o: Oracle, now: nat, budget: nat)
    requires StrictIds(box.entries, box.nextId)
    ensures DropsTrue(|Lost(ExpiredAt(now), box.entries)|, Purged(box, o, now, budget))
    ensures Purged(box, o, now, budget).trace == DrainTrace(box, o, now, budget)
  {
    var start := Start(box, now);
    var stale := |Lost(ExpiredAt(now), box.entries)|;
    var p := Sending(box, o, now, budget);
    var dead := SortedKeys(DeadChannels(p.failed));
    assert DropsTrue(stale, start);
    TurnsDropsTrue(stale, start, SendOrder(start.entries, now, budget), o, now);
    SendDiscipline(box, o, now, budget);
    PurgeAllDropsTrue(stale, p, dead);
    PurgeAllKeepsLists(p, dead);
  }

  // ---- what is said of a message put off ----

  predicate Tells(d: Deferred, e: Entry) {
    d.id == e.id && d.channel == e.channel && d.peer == e.peer && d.attempts == e.attempts
  }

  ghost predicate ToldBy(order: seq<nat>, n: nat, entries: seq<Entry>, d: Deferred)
    requires n <= |order|
  {
    exists i :: 0 <= i < n && order[i] < |entries| && Tells(d, entries[order[i]])
  }

  /** Each record of a message put off describes an entry already visited, as it now stands. */
  ghost predicate DeferredTrue(order: seq<nat>, n: nat, p: Pass)
    requires n <= |order|
  {
    forall k :: 0 <= k < |p.report.deferred| ==> ToldBy(order, n, p.entries, p.report.deferred[k])
  }

  /** A turn touches the entry it visits and no other, and adds at most one record, which describes it. */
  lemma TurnChanges(p: Pass, slot: nat, x: nat, o: Oracle, now: nat)
    requires x < |p.entries|
    ensures var q := Turn(p, slot, x, o, now);
            && |q.entries| == |p.entries| && q.entries == p.entries[x := q.entries[x]]
            && (q.report.deferred == p.report.deferred
                || exists d :: Tells(d, q.entries[x]) && q.report.deferred == p.report.deferred + [d])
  {
    var e := p.entries[x];
    var q := Turn(p, slot, x, o, now);
    if q.report.deferred != p.report.deferred {
      assert |q.report.deferred| == |p.report.deferred| + 1;
      var d := q.report.deferred[|p.report.deferred|];
      assert Tells(d, q.entries[x]) && q.report.deferred == p.report.deferred + [d];
    }
  }

  lemma StillTold(order: seq<nat>, n: nat, entries: seq<Entry>, e: Entry, d: Deferred)
    requires Distinct(order) && n < |order| && order[n] < |entries| && ToldBy(order, n, entries, d)
    ensures ToldBy(order, n + 1, entries[order[n] := e], d)
  {
    var i :| 0 <= i < n && order[i] < |entries| && Tells(d, entries[order[i]]);
    assert order[i] != order[n];
    assert Tells(d, entries[order[n] := e][order[i]]);
  }

  lemma TurnDeferred(order: seq<nat>, n: nat, p: Pass, o: Oracle, now: nat)
    requires Distinct(order) && n < |order| && order[n] < |p.entries| && DeferredTrue(order, n, p)
    ensures DeferredTrue(order, n + 1, Turn(p, n, order[n], o, now))
  {
    var q := Turn(p, n, order[n], o, now);
    TurnChanges(p, n, order[n], o, now);
    forall k | 0 <= k < |q.report.deferred| ensures ToldBy(order, n + 1, q.entries, q.report.deferred[k]) {
      if k < |p.report.deferred| {
        StillTold(order, n, p.entries, q.entries[order[n]], p.report.deferred[k]);
      } else {
        assert Tells(q.report.deferred[k], q.entries[order[n]]);
      }
    }
  }

  lemma {:induction false} TurnsDeferred(order: seq<nat>, n: nat, p: Pass, o: Oracle, now: nat)
    requires Distinct(order) && Indices(p.entries, order) && n <= |order| && p.report.deferred == []
    ensures DeferredTrue(order, n, Turns(p, order[..n], o, now))
  {
    if n > 0 {
      var q := Turns(p, order[..n - 1], o, now);
      TurnsDeferred(order, n - 1, p, o, now);
      TurnDeferred(order, n - 1, q, o, now);
      TurnsStep(p, order, n - 1, o, now);
    } else {
      assert Turns(p, order[..n], o, now) == p;
    }
  }

  lemma SameIdSameEntry(s: seq<Entry>, bound: nat, a: Entry, b: Entry)
    requires StrictIds(s, bound) && a in s && b in s && a.id == b.id
    ensures a == b
  {
    var i :| 0 <= i < |s| && s[i] == a;
    var j :| 0 <= j < |s| && s[j] == b;
  }

  /** A message reported as waiting is still queued, under that id, for that channel and peer and after that many
      attempts. */
  lemma DeferredTellsTruth(box: Box, o: Oracle, now: nat, budget: nat, d: Deferred) returns (e: Entry)
    requires StrictIds(box.entries, box.nextId)
    requires d in DrainReport(box, o, now, budget).deferred
    ensures e in Drained(box, o, now, budget).entries && Tells(d, e)
  {
    var p := Sending(box, o, now, budget);
    var dead := SortedKeys(DeadChannels(p.failed));
    e := DeferredSurvives(box, o, now, budget, d);
    DeferredWasDeferred(d, p, dead);
    var f := SendingTells(box, o, now, budget, d);
    SendingAccount(d.id, box, o, now, budget);
    SameQueueStrict(Kept(ExpiredAt(now), box.entries), p.entries, box.nextId);
    SameIdSameEntry(p.entries, box.nextId, e, f);
  }

  lemma DeferredSurvives(box: Box, o: Oracle, now: nat, budget: nat, d: Deferred) returns (e: Entry)
    requires StrictIds(box.entries, box.nextId)
    requires d in DrainReport(box, o, now, budget).deferred
    ensures e in Drained(box, o, now, budget).entries && e.id == d.id
    ensures e in Sending(box, o, now, budget).entries
  {
    var p := Sending(box, o, now, budget);
    var dead := SortedKeys(DeadChannels(p.failed));
    SendingAccount(d.id, box, o, now, budget);
    e := DeferredOutlivesPurge(Kept(ExpiredAt(now), box.entries), p, dead, d);
    StaysAfterSweep(box, o, now, budget, e);
    PurgeAllEntries(e, p, dead);
  }

  lemma SendingTells(box: Box, o: Oracle, now: nat, budget: nat, d: Deferred) returns (f: Entry)
    requires StrictIds(box.entries, box.nextId)
    requires d in Sending(box, o, now, budget).report.deferred
    ensures f in Sending(box, o, now, budget).entries && Tells(d, f)
  {
    var live := Kept(ExpiredAt(now), box.entries);
    var order := SendOrder(live, now, budget);
    KeptStrict(ExpiredAt(now), box.entries, box.nextId);
    SendOrderOrdered(live, now, budget, box.nextId);
    assert order[..|order|] == order;
    TurnsDeferred(order, |order|, Start(box, now), o, now);
    f := ToldEntry(order, Sending(box, o, now, budget), d);
  }

  lemma ToldEntry(order: seq<nat>, p: Pass, d: Deferred) returns (f: Entry)
    requires DeferredTrue(order, |order|, p) && d in p.report.deferred
    ensures f in p.entries && Tells(d, f)
  {
    var k :| 0 <= k < |p.report.deferred| && p.report.deferred[k] == d;
    assert ToldBy(order, |order|, p.entries, d);
    var i :| 0 <= i < |order| && order[i] < |p.entries| && Tells(d, p.entries[order[i]]);
    f := p.entries[order[i]];
  }
}
