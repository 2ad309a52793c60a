/** Why a message is said to wait: the answers of a pass, one by one, against the reasons it reports. */
module OutboxDeferrals {
  import opened Wrappers
  import opened StringOrder
  import opened OutboxModel
  import opened OutboxPass
  import opened OutboxDiscipline
  import OutboxReports

  /** The answer keeps the message waiting, for this reason: a session lost, a peer unknown, no session, or whatever the
      session manager or the backend said. */
  predicate KeepsWaiting(c: Call, reason: DeferReason) {
    match c
    case Seal(_, _, _, _, answer) =>
      || (answer.SessionLostError? && reason.SessionLost?)
      || (answer.UnknownPeerError? && reason.PeerUnknown?)
      || (answer.NoSessionError? && reason.NoSession?)
      || (answer.OtherSessionError? && reason == DeferReason.Unreachable(answer.text))
    case Post(_, _, _, _, answer) => answer.BackendError? && reason == DeferReason.Unreachable(answer.detail)
  }

  /** The answer shuts its channel for the rest of the pass: unreachable for a failing backend, without a session where
      nothing will ever be delivered again. */
  predicate Shuts(c: Call, channel: ChannelId, reason: DeferReason) {
    && c.Post? && c.channel == channel
    && ((c.postAnswer.BackendError? && reason == DeferReason.Unreachable(c.postAnswer.detail))
        || ((c.postAnswer.RetiredError? || c.postAnswer.UnknownChannelError?) && reason.NoSession?))
  }

  /** The message was tried and kept waiting, or its channel had been shut. */
  ghost predicate Explains(trace: seq<Call>, d: Deferred) {
    exists c :: c in trace && ((c.id == d.id && KeepsWaiting(c, d.reason)) || Shuts(c, d.channel, d.reason))
  }

  ghost predicate ShutShown(trace: seq<Call>, channel: ChannelId, reason: DeferReason) {
    exists c :: c in trace && Shuts(c, channel, reason)
  }

  /** Every record and every shut channel has its answer; and every answer that keeps a message waiting has its record. */
  ghost predicate AllExplained(p: Pass) {
    && (forall d :: d in p.report.deferred ==> Explains(p.trace, d))
    && (forall c :: c in p.failed ==> ShutShown(p.trace, c, p.failed[c]))
    && (forall c, reason :: c in p.trace && KeepsWaiting(c, reason) ==> Recorded(p.report.deferred, c.id, reason))
  }

  ghost predicate Recorded(deferred: seq<Deferred>, id: nat, reason: DeferReason) {
    exists d :: d in deferred && d.id == id && d.reason == reason
  }

  lemma ExplainsMore(trace: seq<Call>, c: Call, d: Deferred)
    requires Explains(trace, d)
    ensures Explains(trace + [c], d)
  {
    var b :| b in trace && ((b.id == d.id && KeepsWaiting(b, d.reason)) || Shuts(b, d.channel, d.reason));
    assert b in trace + [c];
  }

  lemma ShutMore(trace: seq<Call>, c: Call, channel: ChannelId, reason: DeferReason)
    requires ShutShown(trace, channel, reason)
    ensures ShutShown(trace + [c], channel, reason)
  {
    var b :| b in trace && Shuts(b, channel, reason);
    assert b in trace + [c];
  }

  lemma RecordedMore(deferred: seq<Deferred>, d: Deferred, id: nat, reason: DeferReason)
    requires Recorded(deferred, id, reason)
    ensures Recorded(deferred + [d], id, reason)
  {
    var b :| b in deferred && b.id == id && b.reason == reason;
    assert b in deferred + [d];
  }

  /** A call that keeps nothing waiting. */
  lemma QuietExplained(p: Pass, c: Call)
    requires AllExplained(p) && forall reason :: !KeepsWaiting(c, reason)
    ensures AllExplained(Note(p, c))
  {
    var q := Note(p, c);
    forall d | d in q.report.deferred ensures Explains(q.trace, d) {
      ExplainsMore(p.trace, c, d);
    }
    forall ch | ch in q.failed ensures ShutShown(q.trace, ch, q.failed[ch]) {
      ShutMore(p.trace, c, ch, p.failed[ch]);
    }
  }

  /** A call that keeps its message waiting, with its record. */
  lemma WaitingExplained(p: Pass, c: Call, d: Deferred)
    requires AllExplained(p) && KeepsWaiting(c, d.reason) && c.id == d.id
    ensures AllExplained(Note(p, c).(report := p.report.(deferred := p.report.deferred + [d])))
  {
    var trace, deferred := p.trace + [c], p.report.deferred + [d];
    assert c in trace && d in deferred;
    forall f | f in deferred ensures Explains(trace, f) {
      if f in p.report.deferred {
        ExplainsMore(p.trace, c, f);
      }
    }
    forall ch | ch in p.failed ensures ShutShown(trace, ch, p.failed[ch]) {
      ShutMore(p.trace, c, ch, p.failed[ch]);
    }
    forall b, reason | b in trace && KeepsWaiting(b, reason) ensures Recorded(deferred, b.id, reason) {
      if b in p.trace {
        RecordedMore(p.report.deferred, d, b.id, reason);
      } else {
        assert b == c && reason == d.reason;
      }
    }
  }

  /** Entering a channel in the table, once the answer is in the trace. */
  lemma ShutExplained(p: Pass, c: Call, channel: ChannelId, reason: DeferReason)
    requires AllExplained(p) && c in p.trace && Shuts(c, channel, reason)
    ensures AllExplained(p.(failed := p.failed[channel := reason]))
  {
  }

  /** A record for a channel already shut. */
  lemma ShutOutExplained(p: Pass, d: Deferred)
    requires AllExplained(p) && d.channel in p.failed && d.reason == p.failed[d.channel]
    ensures AllExplained(p.(report := p.report.(deferred := p.report.deferred + [d])))
  {
    assert ShutShown(p.trace, d.channel, d.reason);
    forall b, reason | b in p.trace && KeepsWaiting(b, reason)
      ensures Recorded(p.report.deferred + [d], b.id, reason)
    {
      RecordedMore(p.report.deferred, d, b.id, reason);
    }
  }

  /** Only the trace, the table and the records matter. */
  lemma SameExplained(p: Pass, q: Pass)
    requires AllExplained(p) && q.trace == p.trace && q.failed == p.failed && q.report.deferred == p.report.deferred
    ensures AllExplained(q)
  {
  }

  lemma PostExplained(p: Pass, c: Call, x: nat, now: nat)
    requires AllExplained(p) && c.Post? && x < |p.entries| && c.id == p.entries[x].id && c.channel == p.entries[x].channel
    ensures AllExplained(Posted(Note(p, c), x, c.postAnswer, now))
  {
    var e, q := p.entries[x], Posted(Note(p, c), x, c.postAnswer, now);
    match c.postAnswer
    case Accepted(_) =>
      QuietExplained(p, c);
      SameExplained(Note(p, c), q);
    case BackendError(detail) =>
      var d := Deferred(e.id, e.channel, e.peer, DeferReason.Unreachable(detail), e.attempts + 1);
      WaitingExplained(p, c, d);
      var w := Note(p, c).(report := p.report.(deferred := p.report.deferred + [d]));
      ShutExplained(w, c, e.channel, DeferReason.Unreachable(detail));
      SameExplained(w.(failed := w.failed[e.channel := DeferReason.Unreachable(detail)]), q);
    case _ =>
      QuietExplained(p, c);
      ShutExplained(Note(p, c), c, e.channel, DeferReason.NoSession);
      SameExplained(Note(p, c).(failed := p.failed[e.channel := DeferReason.NoSession]), q);
  }

  lemma SealExplained(p: Pass, c: Call, x: nat, now: nat)
    requires AllExplained(p) && c.Seal? && x < |p.entries| && c.id == p.entries[x].id && !c.sealAnswer.Sealed?
    ensures AllExplained(Retry(Note(p, c), x, SealReason(c.sealAnswer), now))
  {
    var e, reason := p.entries[x], SealReason(c.sealAnswer);
    var d := Deferred(e.id, e.channel, e.peer, reason, e.attempts + 1);
    WaitingExplained(p, c, d);
    SameExplained(Note(p, c).(report := p.report.(deferred := p.report.deferred + [d])),
                  Retry(Note(p, c), x, reason, now));
  }

  lemma TurnExplained(p: Pass, slot: nat, x: nat, o: Oracle, now: nat)
    requires AllExplained(p) && x < |p.entries|
    ensures AllExplained(Turn(p, slot, x, o, now))
  {
    var e := p.entries[x];
    if e.channel in p.failed {
      ShutOutExplained(p, Deferred(e.id, e.channel, e.peer, p.failed[e.channel], e.attempts));
    } else {
      var sealing := o.seal(|p.trace|, e.peer, e.plaintext);
      var c := Seal(slot, e.id, e.peer, e.plaintext, sealing);
      if !sealing.Sealed? {
        SealExplained(p, c, x, now);
      } else {
        QuietExplained(p, c);
        var q, outbound := Note(p, c), Outbound(sealing.frame, e.highPriority, e.ttl);
        PostExplained(q, Post(slot, e.id, e.channel, outbound, o.post(|q.trace|, e.channel, outbound)), x, now);
      }
    }
  }

  lemma {:induction false} TurnsExplained(p: Pass, order: seq<nat>, o: Oracle, now: nat)
    requires AllExplained(p) && Indices(p.entries, order)
    ensures AllExplained(Turns(p, order, o, now))
  {
    if order != [] {
      var n := |order| - 1;
      TurnsExplained(p, order[..n], o, now);
      TurnExplained(Turns(p, order[..n], o, now), n, order[n], o, now);
    }
  }

  lemma SendingExplained(box: Box, o: Oracle, now: nat, budget: nat)
    ensures AllExplained(Sending(box, o, now, budget))
  {
    var start := Start(box, now);
    TurnsExplained(start, SendOrder(start.entries, now, budget), o, now);
  }

  // ---- in the report of the drain ----

  /** The purge withdraws a record only with a drop of the same id. */
  lemma PurgeWithdraws(p: Pass, channel: ChannelId, d: Deferred)
    requires d in p.report.deferred
    ensures d in Purge(p, channel).report.deferred || d.id in DroppedIds(Purge(p, channel).report.dropped)
  {
    var gone := Lost(Backlog(channel, p.droppedIds), p.entries);
    var more := DropAll(gone, BurialReason(p.report.dropped, channel));
    if d.id in Ids(gone) {
      DropAllIds(gone, BurialReason(p.report.dropped, channel));
      DroppedIdsConcat(p.report.dropped, more);
      assert d.id in DroppedIds(p.report.dropped) + DroppedIds(more);
    }
  }

  lemma PurgeKeepsDropIds(p: Pass, channel: ChannelId)
    ensures DroppedIds(p.report.dropped) <= DroppedIds(Purge(p, channel).report.dropped)
  {
    var gone := Lost(Backlog(channel, p.droppedIds), p.entries);
    DroppedIdsConcat(p.report.dropped, DropAll(gone, BurialReason(p.report.dropped, channel)));
  }

  lemma {:induction false} PurgesWithdraw(p: Pass, dead: seq<ChannelId>, d: Deferred)
    requires d in p.report.deferred
    ensures d in PurgeAll(p, dead).report.deferred || d.id in DroppedIds(PurgeAll(p, dead).report.dropped)
  {
    if dead != [] {
      var n := |dead| - 1;
      var q := PurgeAll(p, dead[..n]);
      PurgesWithdraw(p, dead[..n], d);
      PurgeKeepsDropIds(q, dead[n]);
      if d in q.report.deferred {
        PurgeWithdraws(q, dead[n], d);
      }
    }
  }

  /** Every record of a message put off has its reason from an answer of the pass: to the message itself, or to one before
      it that shut its channel. */
  lemma DeferredReasonsExact(box: Box, o: Oracle, now: nat, budget: nat, d: Deferred)
    requires d in DrainReport(box, o, now, budget).deferred
    ensures Explains(DrainTrace(box, o, now, budget), d)
  {
    var p := Sending(box, o, now, budget);
    SendingExplained(box, o, now, budget);
    OutboxReports.DeferredWasDeferred(d, p, SortedKeys(DeadChannels(p.failed)));
  }

  /** And every answer that keeps a message waiting is reported with its own reason, unless the message is reported as
      dropped. */
  lemma RefusalsReported(box: Box, o: Oracle, now: nat, budget: nat, c: Call, reason: DeferReason)
    requires c in DrainTrace(box, o, now, budget) && KeepsWaiting(c, reason)
    ensures Recorded(DrainReport(box, o, now, budget).deferred, c.id, reason)
            || c.id in DroppedIds(DrainReport(box, o, now, budget).dropped)
  {
    var p := Sending(box, o, now, budget);
    SendingExplained(box, o, now, budget);
    assert Recorded(p.report.deferred, c.id, reason);
    var d :| d in p.report.deferred && d.id == c.id && d.reason == reason;
    PurgesWithdraw(p, SortedKeys(DeadChannels(p.failed)), d);
  }
}
