/** The accounts of one drain: where every id that was queued is found afterwards. */
module OutboxPass {
  import opened Wrappers
  import opened StringOrder
  import opened OutboxModel
  import opened OutboxQueue
  import opened OutboxOrder

  // ---- what a pass leaves alone ----

  predicate SameMessage(a: Entry, b: Entry) {
    a == b.(attempts := a.attempts, notBefore := a.notBefore)
  }

  predicate SameQueue(live: seq<Entry>, entries: seq<Entry>) {
    |entries| == |live| && forall i :: 0 <= i < |live| ==> SameMessage(entries[i], live[i])
  }

  predicate Dead(p: Pass, channel: ChannelId) {
    channel in p.failed && p.failed[channel] == NoSession
  }

  /** Reports and id lists agree, and only entries of dead channels were dropped by the loop. */
  predicate Books(live: seq<Entry>, stale: seq<nat>, p: Pass) {
    && SameQueue(live, p.entries)
    && SentIds(p.report.sent) == p.sentIds
    && DroppedIds(p.report.dropped) == stale + p.droppedIds
    && (forall y :: 0 <= y < |live| && live[y].id in p.droppedIds ==> Dead(p, live[y].channel))
    && (forall y, k :: 0 <= y < |live| && 0 <= k < |p.report.sent| && live[y].id == p.report.sent[k].id ==>
          p.report.sent[k].channel == live[y].channel)
  }

  lemma SentIdsAppend(s: seq<Sent>, x: Sent)
    ensures SentIds(s + [x]) == SentIds(s) + [x.id]
  {
    assert (s + [x])[..|s|] == s;
  }

  lemma DroppedIdsConcat(a: seq<Dropped>, b: seq<Dropped>)
    ensures DroppedIds(a + b) == DroppedIds(a) + DroppedIds(b)
  {
    assert forall i :: 0 <= i < |a + b| ==> DroppedIds(a + b)[i] == (DroppedIds(a) + DroppedIds(b))[i];
  }

  lemma DeferredIdsAppend(s: seq<Deferred>, x: Deferred)
    ensures DeferredIds(s + [x]) == DeferredIds(s) + [x.id]
  {
    assert (s + [x])[..|s|] == s;
  }

  lemma TimesAppend(id: nat, ids: seq<nat>, x: nat)
    ensures Times(id, ids + [x]) == Times(id, ids) + if x == id then 1 else 0
  {
    assert (ids + [x])[..|ids|] == ids;
  }

  // ---- one turn ----

  /** How often a pass has disposed of an id: sent it, dropped it or put it off. */
  function Fates(id: nat, p: Pass): nat {
    Times(id, p.sentIds) + Times(id, p.droppedIds) + Times(id, DeferredIds(p.report.deferred))
  }

  lemma DeferFates(id: nat, p: Pass, e: Entry, reason: DeferReason, attempts: nat)
    ensures Fates(id, Defer(p, e, reason, attempts)) == Fates(id, p) + if e.id == id then 1 else 0
  {
    DeferredIdsAppend(p.report.deferred, Deferred(e.id, e.channel, e.peer, reason, attempts));
    TimesAppend(id, DeferredIds(p.report.deferred), e.id);
  }

  lemma PostedFates(id: nat, p: Pass, x: nat, answer: PostAnswer, now: nat)
    requires x < |p.entries|
    ensures Fates(id, Posted(p, x, answer, now)) == Fates(id, p) + if p.entries[x].id == id then 1 else 0
  {
    var e := p.entries[x];
    TimesAppend(id, p.sentIds, e.id);
    TimesAppend(id, p.droppedIds, e.id);
    if answer.BackendError? {
      DeferFates(id, p, e, Unreachable(answer.detail), e.attempts + 1);
    }
  }

  /** Each turn disposes of the entry it visits exactly once, and of no other. */
  lemma TurnFates(id: nat, p: Pass, slot: nat, x: nat, o: Oracle, now: nat)
    requires x < |p.entries|
    ensures Fates(id, Turn(p, slot, x, o, now)) == Fates(id, p) + if p.entries[x].id == id then 1 else 0
  {
    var e := p.entries[x];
    if e.channel in p.failed {
      DeferFates(id, p, e, p.failed[e.channel], e.attempts);
    } else {
      var sealing := o.seal(|p.trace|, e.peer, e.plaintext);
      var q := Note(p, Seal(slot, e.id, e.peer, e.plaintext, sealing));
      if !sealing.Sealed? {
        DeferFates(id, q, e, SealReason(sealing), e.attempts + 1);
      } else {
        var outbound := Outbound(sealing.frame, e.highPriority, e.ttl);
        var posting := o.post(|q.trace|, e.channel, outbound);
        PostedFates(id, Note(q, Post(slot, e.id, e.channel, outbound, posting)), x, posting, now);
      }
    }
  }

  lemma MarkSentBooks(live: seq<Entry>, stale: seq<nat>, p: Pass, x: nat, messageId: string, now: nat, bound: nat)
    requires StrictIds(live, bound) && Books(live, stale, p) && x < |live|
    ensures Books(live, stale, MarkSent(p, p.entries[x], messageId, now))
  {
    var e := p.entries[x];
    assert SameMessage(e, live[x]);
    SentIdsAppend(p.report.sent, Sent(e.id, e.channel, e.peer, messageId, Max(now - e.enqueuedAt, 0)));
    assert forall y :: 0 <= y < |live| && live[y].id == e.id ==> y == x;
  }

  lemma BuryBooks(live: seq<Entry>, stale: seq<nat>, p: Pass, x: nat, reason: DropReason, bound: nat)
    requires StrictIds(live, bound) && Books(live, stale, p) && x < |live|
    ensures Books(live, stale, Bury(p, p.entries[x], reason))
  {
    var e := p.entries[x];
    assert SameMessage(e, live[x]);
    DroppedIdsConcat(p.report.dropped, [DropAs(e, reason)]);
    assert DroppedIds([DropAs(e, reason)]) == [e.id];
    BuriedAreDead(live, p.droppedIds, p, Bury(p, e, reason), x);
  }

  lemma BuriedAreDead(live: seq<Entry>, dropped: seq<nat>, p: Pass, q: Pass, x: nat)
    requires x < |live| && q.failed == p.failed[live[x].channel := NoSession]
    requires forall y :: 0 <= y < |live| && live[y].id == live[x].id ==> y == x
    requires forall y :: 0 <= y < |live| && live[y].id in dropped ==> Dead(p, live[y].channel)
    ensures forall y :: 0 <= y < |live| && live[y].id in dropped + [live[x].id] ==> Dead(q, live[y].channel)
  {
    forall y | 0 <= y < |live| && live[y].id in dropped + [live[x].id]
      ensures Dead(q, live[y].channel)
    {
      assert live[y].id in dropped || live[y].id == live[x].id;
    }
  }

  lemma RetryBooks(live: seq<Entry>, stale: seq<nat>, p: Pass, x: nat, reason: DeferReason, now: nat)
    requires Books(live, stale, p) && x < |live|
    ensures Books(live, stale, Retry(p, x, reason, now))
  {
    assert SameMessage(p.entries[x], live[x]);
  }

  lemma PostedBooks(live: seq<Entry>, stale: seq<nat>, p: Pass, x: nat, answer: PostAnswer, now: nat, bound: nat)
    requires StrictIds(live, bound) && Books(live, stale, p) && x < |live|
    requires p.entries[x].channel !in p.failed
    ensures Books(live, stale, Posted(p, x, answer, now))
  {
    match answer
    case Accepted(m) => MarkSentBooks(live, stale, p, x, m, now, bound);
    case RetiredError => BuryBooks(live, stale, p, x, ChannelRetired, bound);
    case UnknownChannelError => BuryBooks(live, stale, p, x, ChannelUnknown, bound);
    case BackendError(detail) => RetryBooks(live, stale, p, x, Unreachable(detail), now);
  }

  lemma TurnBooks(live: seq<Entry>, stale: seq<nat>, p: Pass, slot: nat, x: nat, o: Oracle, now: nat, bound: nat)
    requires StrictIds(live, bound) && Books(live, stale, p) && x < |live|
    ensures Books(live, stale, Turn(p, slot, x, o, now))
  {
    var e := p.entries[x];
    if e.channel !in p.failed {
      var sealing := o.seal(|p.trace|, e.peer, e.plaintext);
      var q := Note(p, Seal(slot, e.id, e.peer, e.plaintext, sealing));
      if !sealing.Sealed? {
        RetryBooks(live, stale, q, x, SealReason(sealing), now);
      } else {
        var outbound := Outbound(sealing.frame, e.highPriority, e.ttl);
        var posting := o.post(|q.trace|, e.channel, outbound);
        PostedBooks(live, stale, Note(q, Post(slot, e.id, e.channel, outbound, posting)), x, posting, now, bound);
      }
    }
  }

  // ---- the sending loop ----

  lemma TurnsStep(p: Pass, order: seq<nat>, n: nat, o: Oracle, now: nat)
    requires Indices(p.entries, order) && n < |order|
    ensures Turns(p, order[..n + 1], o, now) == Turn(Turns(p, order[..n], o, now), n, order[n], o, now)
  {
    assert order[..n + 1][..n] == order[..n];
  }

  function Visited(live: seq<Entry>, order: seq<nat>): seq<nat>
    requires Indices(live, order)
  {
    seq(|order|, i requires 0 <= i < |order| => live[order[i]].id)
  }

  lemma {:induction false} TurnsBooks(
    live: seq<Entry>, stale: seq<nat>, p: Pass, order: seq<nat>, o: Oracle, now: nat, bound: nat)
    requires StrictIds(live, bound) && Books(live, stale, p) && Indices(live, order)
    ensures Books(live, stale, Turns(p, order, o, now))
  {
    if order != [] {
      var n := |order| - 1;
      TurnsBooks(live, stale, p, order[..n], o, now, bound);
      TurnBooks(live, stale, Turns(p, order[..n], o, now), n, order[n], o, now, bound);
    }
  }

  lemma VisitedAppend(id: nat, live: seq<Entry>, order: seq<nat>)
    requires Indices(live, order) && order != []
    ensures var n := |order| - 1;
            Times(id, Visited(live, order))
              == Times(id, Visited(live, order[..n])) + if live[order[n]].id == id then 1 else 0
  {
    var n := |order| - 1;
    assert Visited(live, order) == Visited(live, order[..n]) + [live[order[n]].id];
    TimesAppend(id, Visited(live, order[..n]), live[order[n]].id);
  }

  /** The loop disposes of each id as often as it visits it. */
  lemma {:induction false} TurnsFates(
    id: nat, live: seq<Entry>, stale: seq<nat>, p: Pass, order: seq<nat>, o: Oracle, now: nat, bound: nat)
    requires StrictIds(live, bound) && Books(live, stale, p) && Indices(live, order)
    ensures Fates(id, Turns(p, order, o, now)) == Fates(id, p) + Times(id, Visited(live, order))
  {
    if order != [] {
      var n := |order| - 1;
      TurnsFates(id, live, stale, p, order[..n], o, now, bound);
      TurnsBooks(live, stale, p, order[..n], o, now, bound);
      var q := Turns(p, order[..n], o, now);
      assert SameMessage(q.entries[order[n]], live[order[n]]);
      TurnFates(id, q, n, order[n], o, now);
      VisitedAppend(id, live, order);
    }
  }

  lemma {:induction false} VisitedOnce(id: nat, live: seq<Entry>, order: seq<nat>, bound: nat)
    requires StrictIds(live, bound) && Indices(live, order) && Distinct(order)
    ensures Times(id, Visited(live, order)) <= 1
    ensures id !in Ids(live) ==> Times(id, Visited(live, order)) == 0
  {
    if order != [] {
      var n := |order| - 1;
      VisitedOnce(id, live, order[..n], bound);
      VisitedAppend(id, live, order);
      if live[order[n]].id == id {
        TimesPositive(id, Visited(live, order[..n]));
        assert Ids(live)[order[n]] == id;
      }
    }
  }

  // ---- the purge ----

  lemma {:induction false} PurgeAllKeepsLists(p: Pass, dead: seq<ChannelId>)
    ensures PurgeAll(p, dead).sentIds == p.sentIds
    ensures PurgeAll(p, dead).droppedIds == p.droppedIds
    ensures PurgeAll(p, dead).report.sent == p.report.sent
    ensures PurgeAll(p, dead).failed == p.failed && PurgeAll(p, dead).trace == p.trace
  {
    if dead != [] {
      PurgeAllKeepsLists(p, dead[..|dead| - 1]);
    }
  }

  lemma PurgeEntries(e: Entry, p: Pass, channel: ChannelId)
    ensures e in Purge(p, channel).entries <==> e in p.entries && (e.channel == channel ==> e.id in p.droppedIds)
  {
    assert e in Kept(Backlog(channel, p.droppedIds), p.entries)
        <==> e in p.entries && !Hits(Backlog(channel, p.droppedIds), e);
  }

  lemma InLast(c: ChannelId, s: seq<ChannelId>)
    requires s != []
    ensures c in s <==> c in s[..|s| - 1] || c == s[|s| - 1]
  {
    assert s == s[..|s| - 1] + [s[|s| - 1]];
  }

  /** The purge takes exactly the entries of the dead channels that the loop had not already dropped. */
  lemma {:induction false} PurgeAllEntries(e: Entry, p: Pass, dead: seq<ChannelId>)
    ensures e in PurgeAll(p, dead).entries <==> e in p.entries && (e.channel in dead ==> e.id in p.droppedIds)
  {
    if dead != [] {
      var n := |dead| - 1;
      PurgeAllEntries(e, p, dead[..n]);
      PurgeAllKeepsLists(p, dead[..n]);
      PurgeEntries(e, PurgeAll(p, dead[..n]), dead[n]);
      InLast(e.channel, dead);
    }
  }

  lemma {:induction false} PurgeAllStrict(p: Pass, dead: seq<ChannelId>, bound: nat)
    requires StrictIds(p.entries, bound)
    ensures StrictIds(PurgeAll(p, dead).entries, bound)
  {
    if dead != [] {
      PurgeAllStrict(p, dead[..|dead| - 1], bound);
      KeptStrict(Backlog(dead[|dead| - 1], p.droppedIds), PurgeAll(p, dead[..|dead| - 1]).entries, bound);
      PurgeAllKeepsLists(p, dead[..|dead| - 1]);
    }
  }

  lemma DropAllIds(s: seq<Entry>, reason: DropReason)
    ensures DroppedIds(DropAll(s, reason)) == Ids(s)
  {
  }

  /** What the purge takes from the queue it adds to the dropped list. */
  lemma {:induction false} PurgeAllBalances(id: nat, p: Pass, dead: seq<ChannelId>)
    ensures EntryTimes(id, PurgeAll(p, dead).entries) + Times(id, DroppedIds(PurgeAll(p, dead).report.dropped))
         == EntryTimes(id, p.entries) + Times(id, DroppedIds(p.report.dropped))
  {
    if dead != [] {
      var n := |dead| - 1;
      PurgeAllBalances(id, p, dead[..n]);
      var q := PurgeAll(p, dead[..n]);
      var rule := Backlog(dead[n], q.droppedIds);
      var gone := DropAll(Lost(rule, q.entries), BurialReason(q.report.dropped, dead[n]));
      KeptAndLost(id, rule, q.entries);
      DropAllIds(Lost(rule, q.entries), BurialReason(q.report.dropped, dead[n]));
      DroppedIdsConcat(q.report.dropped, gone);
      TimesConcat(id, DroppedIds(q.report.dropped), DroppedIds(gone));
    }
  }
}
