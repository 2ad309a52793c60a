/** Nothing is lost and nothing is counted twice: the accounts of a drain, and the one gap in them. */
module OutboxConservation {
  import opened Wrappers
  import opened StringOrder
  import opened OutboxModel
  import opened OutboxQueue
  import opened OutboxOrder
  import opened OutboxPass

  /** The entry was sent in this pass, and its channel was found dead later in the same pass. */
  ghost predicate SentThenBuried(id: nat, p: Pass) {
    exists k :: 0 <= k < |p.report.sent| && p.report.sent[k].id == id && Dead(p, p.report.sent[k].channel)
  }

  lemma MemberTimes(id: nat, s: seq<Entry>)
    ensures EntryTimes(id, s) > 0 <==> exists e :: e in s && e.id == id
  {
    TimesPositive(id, Ids(s));
    if id in Ids(s) {
      var i :| 0 <= i < |Ids(s)| && Ids(s)[i] == id;
      assert s[i] in s;
    }
    if e :| e in s && e.id == id {
      var i :| 0 <= i < |s| && s[i] == e;
      assert Ids(s)[i] == id;
    }
  }

  /** Removing by id takes every entry with a listed id and no other. */
  lemma LostById(id: nat, ids: seq<nat>, s: seq<Entry>)
    ensures EntryTimes(id, Lost(WithId(ids), s)) == if id in ids then EntryTimes(id, s) else 0
  {
    KeptAndLost(id, WithId(ids), s);
    MemberTimes(id, Kept(WithId(ids), s));
    MemberTimes(id, Lost(WithId(ids), s));
    assert forall e :: e in Kept(WithId(ids), s) ==> !Hits(WithId(ids), e);
    assert forall e :: e in Lost(WithId(ids), s) ==> Hits(WithId(ids), e);
  }

  lemma StartBooks(box: Box, now: nat)
    requires StrictIds(box.entries, box.nextId)
    ensures var live := Kept(ExpiredAt(now), box.entries);
            && StrictIds(live, box.nextId)
            && Books(live, Ids(Lost(ExpiredAt(now), box.entries)), Start(box, now))
  {
    KeptStrict(ExpiredAt(now), box.entries, box.nextId);
    DropAllIds(Lost(ExpiredAt(now), box.entries), Expired);
    var start := Start(box, now);
    assert DroppedIds(start.report.dropped) == Ids(Lost(ExpiredAt(now), box.entries)) + start.droppedIds;
  }

  /** What the sending loop leaves behind, for one id. */
  lemma SendingAccount(id: nat, box: Box, o: Oracle, now: nat, budget: nat)
    requires StrictIds(box.entries, box.nextId)
    ensures var live := Kept(ExpiredAt(now), box.entries);
            var p := Sending(box, o, now, budget);
            && StrictIds(live, box.nextId)
            && Books(live, Ids(Lost(ExpiredAt(now), box.entries)), p)
            && Fates(id, p) <= 1
            && (id !in Ids(live) ==> Fates(id, p) == 0)
  {
    var live, stale := Kept(ExpiredAt(now), box.entries), Ids(Lost(ExpiredAt(now), box.entries));
    var start := Start(box, now);
    var order := SendOrder(live, now, budget);
    StartBooks(box, now);
    assert Distinct(order) by { SendOrderOrdered(live, now, budget, box.nextId); }
    TurnsBooks(live, stale, start, order, o, now, box.nextId);
    TurnsFates(id, live, stale, start, order, o, now, box.nextId);
    VisitedOnce(id, live, order, box.nextId);
  }

  lemma SameQueueIds(live: seq<Entry>, entries: seq<Entry>)
    requires SameQueue(live, entries)
    ensures Ids(entries) == Ids(live)
  {
    assert forall i :: 0 <= i < |live| ==> SameMessage(entries[i], live[i]);
  }

  lemma SameQueueStrict(live: seq<Entry>, entries: seq<Entry>, bound: nat)
    requires SameQueue(live, entries) && StrictIds(live, bound)
    ensures StrictIds(entries, bound)
  {
    assert forall i :: 0 <= i < |live| ==> SameMessage(entries[i], live[i]);
  }

  /** The purge keeps an id unless its channel is dead and the loop had not dropped it. */
  lemma PurgedHas(x: nat, live: seq<Entry>, p: Pass, dead: seq<ChannelId>, bound: nat)
    requires StrictIds(live, bound) && SameQueue(live, p.entries) && x < |live|
    ensures EntryTimes(live[x].id, PurgeAll(p, dead).entries)
         == if live[x].channel in dead && live[x].id !in p.droppedIds then 0 else 1
  {
    var q := PurgeAll(p, dead);
    SameQueueStrict(live, p.entries, bound);
    PurgeAllStrict(p, dead, bound);
    StrictTimes(live[x].id, q.entries, bound);
    MemberTimes(live[x].id, q.entries);
    TimesPositive(live[x].id, Ids(q.entries));
    assert SameMessage(p.entries[x], live[x]);
    PurgeAllEntries(p.entries[x], p, dead);
    forall e | e in q.entries && e.id == live[x].id ensures e == p.entries[x] {
      PurgeAllEntries(e, p, dead);
      var i :| 0 <= i < |p.entries| && p.entries[i] == e;
    }
  }

  lemma InSentIds(id: nat, p: Pass)
    requires SentIds(p.report.sent) == p.sentIds
    ensures id in p.sentIds <==> exists k :: 0 <= k < |p.report.sent| && p.report.sent[k].id == id
  {
    if id in p.sentIds {
      var k :| 0 <= k < |p.sentIds| && p.sentIds[k] == id;
      assert p.report.sent[k].id == id;
    }
    if k :| 0 <= k < |p.report.sent| && p.report.sent[k].id == id {
      assert p.sentIds[k] == id;
    }
  }

  /** The final sweep takes each id the loop sent or dropped, save those the purge took first. */
  lemma SweepAccount(id: nat, live: seq<Entry>, stale: seq<nat>, p: Pass, bound: nat)
    requires StrictIds(live, bound) && Books(live, stale, p) && Fates(id, p) <= 1
    requires id !in Ids(live) ==> Fates(id, p) == 0
    ensures var q := PurgeAll(p, SortedKeys(DeadChannels(p.failed)));
            EntryTimes(id, Lost(WithId(q.sentIds + q.droppedIds), q.entries))
              + (if SentThenBuried(id, p) then 1 else 0)
              == Times(id, p.sentIds) + Times(id, p.droppedIds)
  {
    var dead := SortedKeys(DeadChannels(p.failed));
    var q := PurgeAll(p, dead);
    PurgeAllKeepsLists(p, dead);
    LostById(id, q.sentIds + q.droppedIds, q.entries);
    TimesPositive(id, p.sentIds);
    TimesPositive(id, p.droppedIds);
    InSentIds(id, p);
    if id in Ids(live) {
      var x :| 0 <= x < |live| && Ids(live)[x] == id;
      PurgedHas(x, live, p, dead, bound);
      SentChannel(x, live, stale, p);
    }
  }

  lemma SentChannel(x: nat, live: seq<Entry>, stale: seq<nat>, p: Pass)
    requires Books(live, stale, p) && x < |live|
    ensures SentThenBuried(live[x].id, p) <==> live[x].id in p.sentIds && Dead(p, live[x].channel)
  {
    InSentIds(live[x].id, p);
  }

  /** One drain, one id: what was queued is afterwards queued, reported sent or reported dropped, once in
      all, except that an entry sent on a channel that died later in the pass is reported twice. */
  lemma DrainConserves(id: nat, box: Box, o: Oracle, now: nat, budget: nat)
    requires StrictIds(box.entries, box.nextId)
    ensures var report := DrainReport(box, o, now, budget);
            EntryTimes(id, box.entries)
              + (if SentThenBuried(id, Sending(box, o, now, budget)) then 1 else 0)
              == EntryTimes(id, Drained(box, o, now, budget).entries)
                 + Times(id, SentIds(report.sent)) + Times(id, DroppedIds(report.dropped))
  {
    var live, stale := Kept(ExpiredAt(now), box.entries), Lost(ExpiredAt(now), box.entries);
    var p := Sending(box, o, now, budget);
    var dead := SortedKeys(DeadChannels(p.failed));
    var q := PurgeAll(p, dead);
    KeptAndLost(id, ExpiredAt(now), box.entries);
    SendingAccount(id, box, o, now, budget);
    SameQueueIds(live, p.entries);
    TimesConcat(id, Ids(stale), p.droppedIds);
    PurgeAllBalances(id, p, dead);
    PurgeAllKeepsLists(p, dead);
    KeptAndLost(id, WithId(q.sentIds + q.droppedIds), q.entries);
    SweepAccount(id, live, Ids(stale), p, box.nextId);
  }
}
