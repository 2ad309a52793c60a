/** Expiry: a message past its time is dropped before anything is sent, and reported so; no other is. */
module OutboxExpiry {
  import opened Wrappers
  import opened OutboxModel
  import opened OutboxQueue
  import opened OutboxOrder
  import opened OutboxPass
  import opened OutboxConservation
  import opened OutboxDiscipline
  import opened OutboxReports
  import opened OutboxLedger
  import OutboxFifo
  import StringOrder

  /** The message has an expiry, and the time has come. */
  predicate PastItsTime(e: Entry, now: nat) {
    e.expiresAt.Some? && e.expiresAt.value <= now
  }

  lemma RuleIsTime(e: Entry, now: nat)
    ensures Hits(ExpiredAt(now), e) <==> PastItsTime(e, now)
  {
  }

  // ---- what the trace says ----

  /** A call is made for an entry in the queue, with that entry's own peer and text, or channel, urgency and hold time. */
  predicate CalledFor(c: Call, e: Entry) {
    && c.id == e.id
    && match c
       case Seal(_, _, peer, plaintext, _) => peer == e.peer && plaintext == e.plaintext
       case Post(_, _, channel, outbound, _) =>
         channel == e.channel && outbound.highPriority == e.highPriority && outbound.ttl == e.ttl
  }

  /** Every call of a pass is for an entry of the queue that is due and not past its time. */
  lemma CallsAreTimely(box: Box, o: Oracle, now: nat, budget: nat, c: Call) returns (e: Entry)
    requires StrictIds(box.entries, box.nextId) && c in DrainTrace(box, o, now, budget)
    ensures e in box.entries && CalledFor(c, e) && e.notBefore <= now && !PastItsTime(e, now)
  {
    var live := Kept(ExpiredAt(now), box.entries);
    var order := SendOrder(live, now, budget);
    var trace := DrainTrace(box, o, now, budget);
    SendDiscipline(box, o, now, budget);
    var i :| 0 <= i < |trace| && trace[i] == c;
    assert InRange(trace, |order|) && CallFits(trace[i], live[order[trace[i].slot]]);
    e := live[order[c.slot]];
    assert order[c.slot] in order && e in live;
    RuleIsTime(e, now);
  }

  lemma SameIdIsSame(s: seq<Entry>, bound: nat, e: Entry, f: Entry)
    requires StrictIds(s, bound) && e in s && f in s && e.id == f.id
    ensures e == f
  {
    var i :| 0 <= i < |s| && s[i] == e;
    var j :| 0 <= j < |s| && s[j] == f;
  }

  // ---- what the report says ----

  lemma {:induction false} LostReported(r: Rule, s: seq<Entry>, e: Entry, reason: DropReason)
    requires e in s && Hits(r, e)
    ensures DropAs(e, reason) in DropAll(Lost(r, s), reason)
  {
    var lost := Lost(r, s);
    assert e in lost;
    var i :| 0 <= i < |lost| && lost[i] == e;
    assert DropAll(lost, reason)[i] == DropAs(e, reason);
  }

  lemma ReportedLost(r: Rule, s: seq<Entry>, reason: DropReason, d: Dropped) returns (e: Entry)
    requires d in DropAll(Lost(r, s), reason)
    ensures e in s && Hits(r, e) && d == DropAs(e, reason)
  {
    var lost := Lost(r, s);
    var i :| 0 <= i < |lost| && DropAll(lost, reason)[i] == d;
    e := lost[i];
    assert e in lost;
  }

  lemma TurnKeepsDrops(p: Pass, slot: nat, x: nat, o: Oracle, now: nat)
    requires x < |p.entries|
    ensures p.report.dropped <= Turn(p, slot, x, o, now).report.dropped
  {
  }

  lemma {:induction false} TurnsKeepDrops(p: Pass, order: seq<nat>, o: Oracle, now: nat)
    requires Indices(p.entries, order)
    ensures p.report.dropped <= Turns(p, order, o, now).report.dropped
  {
    if order != [] {
      var n := |order| - 1;
      TurnsKeepDrops(p, order[..n], o, now);
      TurnKeepsDrops(Turns(p, order[..n], o, now), n, order[n], o, now);
    }
  }

  lemma {:induction false} PurgesKeepDrops(p: Pass, dead: seq<ChannelId>)
    ensures p.report.dropped <= PurgeAll(p, dead).report.dropped
  {
    if dead != [] {
      PurgesKeepDrops(p, dead[..|dead| - 1]);
    }
  }

  /** The report begins with the drops made before anything was sent. */
  lemma ExpiredFirst(box: Box, o: Oracle, now: nat, budget: nat)
    ensures DropAll(Lost(ExpiredAt(now), box.entries), Expired) <= DrainReport(box, o, now, budget).dropped
  {
    var start, p := Start(box, now), Sending(box, o, now, budget);
    TurnsKeepDrops(start, SendOrder(start.entries, now, budget), o, now);
    PurgesKeepDrops(p, StringOrder.SortedKeys(DeadChannels(p.failed)));
  }

  lemma GoneFromQueue(box: Box, o: Oracle, now: nat, budget: nat, e: Entry)
    requires StrictIds(box.entries, box.nextId) && e in box.entries && PastItsTime(e, now)
    ensures e.id !in Ids(Drained(box, o, now, budget).entries)
  {
    var after := Drained(box, o, now, budget).entries;
    if e.id in Ids(after) {
      var i :| 0 <= i < |after| && Ids(after)[i] == e.id;
      var f := OutboxFifo.CameFrom(box, o, now, budget, after[i]);
      SameIdIsSame(box.entries, box.nextId, e, f);
      RuleIsTime(f, now);
    }
  }

  /** A message past its time is reported as expired, is no longer queued, and no call of the pass is made for it. */
  lemma ExpiredIsDropped(box: Box, o: Oracle, now: nat, budget: nat, e: Entry, t: nat)
    requires StrictIds(box.entries, box.nextId) && e in box.entries && e.expiresAt == Some(t) && t <= now
    ensures Dropped(e.id, e.channel, e.peer, Expired) in DrainReport(box, o, now, budget).dropped
    ensures e.id !in Ids(Drained(box, o, now, budget).entries)
    ensures forall c :: c in DrainTrace(box, o, now, budget) ==> c.id != e.id
  {
    RuleIsTime(e, now);
    ExpiredFirst(box, o, now, budget);
    LostReported(ExpiredAt(now), box.entries, e, Expired);
    GoneFromQueue(box, o, now, budget, e);
    forall c | c in DrainTrace(box, o, now, budget) ensures c.id != e.id {
      var f := CallsAreTimely(box, o, now, budget, c);
      if f.id == e.id {
        SameIdIsSame(box.entries, box.nextId, e, f);
      }
    }
  }

  /** Where the report of expired messages ends. */
  lemma FirstAreExpired(box: Box, o: Oracle, now: nat, budget: nat, k: nat)
    requires StrictIds(box.entries, box.nextId) && k < |DrainReport(box, o, now, budget).dropped|
    requires DrainReport(box, o, now, budget).dropped[k].reason == Expired
    ensures k < |Lost(ExpiredAt(now), box.entries)|
  {
    DroppedReasonsExact(box, o, now, budget);
  }

  lemma ReportedExpired(box: Box, o: Oracle, now: nat, budget: nat, d: Dropped) returns (e: Entry)
    requires StrictIds(box.entries, box.nextId) && d in DrainReport(box, o, now, budget).dropped && d.reason == Expired
    ensures e in box.entries && PastItsTime(e, now) && d == Dropped(e.id, e.channel, e.peer, Expired)
  {
    var dropped, first := DrainReport(box, o, now, budget).dropped, DropAll(Lost(ExpiredAt(now), box.entries), Expired);
    var k :| 0 <= k < |dropped| && dropped[k] == d;
    FirstAreExpired(box, o, now, budget, k);
    ExpiredFirst(box, o, now, budget);
    assert d == first[k];
    e := ReportedLost(ExpiredAt(now), box.entries, Expired, d);
    RuleIsTime(e, now);
  }

  /** A drain reports a message as expired exactly when it is one of the queue past its time. */
  lemma ExpiredExactlyWhen(box: Box, o: Oracle, now: nat, budget: nat, d: Dropped)
    requires StrictIds(box.entries, box.nextId)
    ensures d in DrainReport(box, o, now, budget).dropped && d.reason == Expired <==>
              exists e :: e in box.entries && PastItsTime(e, now) && d == Dropped(e.id, e.channel, e.peer, Expired)
  {
    if d in DrainReport(box, o, now, budget).dropped && d.reason == Expired {
      var e := ReportedExpired(box, o, now, budget, d);
    }
    forall e | e in box.entries && PastItsTime(e, now) && d == Dropped(e.id, e.channel, e.peer, Expired)
      ensures d in DrainReport(box, o, now, budget).dropped
    {
      ExpiredIsDropped(box, o, now, budget, e, e.expiresAt.value);
    }
  }
}
