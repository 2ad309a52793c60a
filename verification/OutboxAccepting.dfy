/** Passes over a transport that accepts what it is given, at least for a while: when a double count is possible at all,
    and how fast a queue empties. */
module OutboxAccepting {
  import opened Wrappers
  import opened StringOrder
  import opened OutboxModel
  import opened OutboxQueue
  import opened OutboxOrder
  import opened OutboxPass
  import opened OutboxConservation
  import opened OutboxDiscipline
  import opened OutboxReports

  /** Every message can be sealed, and every post before the given call of the pass is accepted. */
  ghost predicate AcceptsUntil(o: Oracle, call: nat) {
    && (forall k, peer, text :: o.seal(k, peer, text).Sealed?)
    && (forall k: nat, c, out :: k < call ==> o.post(k, c, out).Accepted?)
  }

  ghost predicate AcceptsAll(o: Oracle) {
    forall call :: AcceptsUntil(o, call)
  }

  /** Two calls for each of the first `n` entries of the order, the second of them a post that was accepted. */
  predicate PostedTrace(live: seq<Entry>, order: seq<nat>, n: nat, trace: seq<Call>)
    requires Indices(live, order) && n <= |order|
  {
    && |trace| == 2 * n
    && forall i :: 0 <= i < n ==> Delivered(trace[2 * i + 1]) && trace[2 * i + 1].channel == live[order[i]].channel
  }

  lemma OneMorePosted(live: seq<Entry>, order: seq<nat>, n: nat, trace: seq<Call>, a: Call, b: Call)
    requires Indices(live, order) && n < |order| && PostedTrace(live, order, n, trace)
    requires Delivered(b) && b.channel == live[order[n]].channel
    ensures PostedTrace(live, order, n + 1, trace + [a] + [b])
  {
  }

  /** The pass has sent the first `n` entries of the order and done nothing else. */
  ghost predicate SentSoFar(live: seq<Entry>, order: seq<nat>, n: nat, p: Pass)
    requires Indices(live, order) && n <= |order|
  {
    && p.entries == live && p.failed == map[] && p.droppedIds == []
    && p.sentIds == Visited(live, order[..n]) && SentIds(p.report.sent) == p.sentIds
    && PostedTrace(live, order, n, p.trace)
  }

  lemma AcceptedTurn(live: seq<Entry>, order: seq<nat>, n: nat, p: Pass, o: Oracle, now: nat)
    requires Indices(live, order) && n < |order| && SentSoFar(live, order, n, p) && AcceptsUntil(o, 2 * n + 2)
    ensures SentSoFar(live, order, n + 1, Turn(p, n, order[n], o, now))
  {
    var s, a, b := AcceptedEffect(p, n, order[n], o, now);
    assert Visited(live, order[..n + 1]) == Visited(live, order[..n]) + [live[order[n]].id];
    SentIdsAppend(p.report.sent, s);
    OneMorePosted(live, order, n, p.trace, a, b);
  }

  lemma AcceptedEffect(p: Pass, slot: nat, x: nat, o: Oracle, now: nat) returns (s: Sent, a: Call, b: Call)
    requires x < |p.entries| && p.failed == map[] && AcceptsUntil(o, |p.trace| + 2)
    ensures var q, e := Turn(p, slot, x, o, now), p.entries[x];
            && q.entries == p.entries && q.failed == p.failed && q.droppedIds == p.droppedIds
            && q.sentIds == p.sentIds + [e.id] && q.report.sent == p.report.sent + [s] && s.id == e.id
            && q.trace == p.trace + [a] + [b] && Delivered(b) && b.channel == e.channel
  {
    var q := Turn(p, slot, x, o, now);
    s := q.report.sent[|p.report.sent|];
    a, b := q.trace[|p.trace|], q.trace[|p.trace| + 1];
  }

  lemma NextAccepted(live: seq<Entry>, order: seq<nat>, n: nat, p: Pass, o: Oracle, now: nat)
    requires Indices(live, order) && n < |order| && p.entries == live
    requires SentSoFar(live, order, n, Turns(p, order[..n], o, now)) && AcceptsUntil(o, 2 * n + 2)
    ensures SentSoFar(live, order, n + 1, Turns(p, order[..n + 1], o, now))
  {
    AcceptedTurn(live, order, n, Turns(p, order[..n], o, now), o, now);
    TurnsStep(p, order, n, o, now);
  }

  lemma {:induction false} AcceptedTurns(live: seq<Entry>, order: seq<nat>, n: nat, p: Pass, o: Oracle, now: nat)
    requires Indices(live, order) && n <= |order| && SentSoFar(live, order, 0, p) && AcceptsUntil(o, 2 * n)
    ensures SentSoFar(live, order, n, Turns(p, order[..n], o, now))
  {
    if n > 0 {
      AcceptedTurns(live, order, n - 1, p, o, now);
      NextAccepted(live, order, n - 1, p, o, now);
    } else {
      assert Turns(p, order[..n], o, now) == p;
    }
  }

  // ---- when a double count is possible ----

  function AcceptUntil(call: nat): Oracle {
    Oracle((k, peer, text) => Sealed(text), (k, c, out) => if k < call then Accepted("m") else RetiredError)
  }

  predicate DistinctChannels(live: seq<Entry>, order: seq<nat>)
    requires Indices(live, order)
  {
    forall a, b :: 0 <= a < b < |order| ==> live[order[a]].channel != live[order[b]].channel
  }

  lemma KilledTurn(live: seq<Entry>, order: seq<nat>, a: nat, b: nat, p: Pass, now: nat)
    requires Indices(live, order) && a < b < |order| && live[order[a]].channel == live[order[b]].channel
    requires SentSoFar(live, order, b, p)
    ensures DiesAfterAccepting(Turn(p, b, order[b], AcceptUntil(2 * b + 1), now).trace)
  {
    var t := Turn(p, b, order[b], AcceptUntil(2 * b + 1), now).trace;
    assert t[2 * a + 1] == p.trace[2 * a + 1] && Delivered(t[2 * a + 1]);
    assert Killed(t[2 * b + 1]) && t[2 * b + 1].channel == live[order[b]].channel;
  }

  lemma DeathStays(trace: seq<Call>, more: seq<Call>)
    requires trace <= more && DiesAfterAccepting(trace)
    ensures DiesAfterAccepting(more)
  {
    var i, j :| 0 <= i < j < |trace| && Delivered(trace[i]) && Killed(trace[j]) && trace[i].channel == trace[j].channel;
    assert more[i] == trace[i] && more[j] == trace[j];
  }

  lemma LastTurnGrows(p: Pass, order: seq<nat>, o: Oracle, now: nat)
    requires Indices(p.entries, order) && order != []
    ensures Turns(p, order[..|order| - 1], o, now).trace <= Turns(p, order, o, now).trace
  {
    var last := |order| - 1;
    TurnTrace(Turns(p, order[..last], o, now), last, order[last], o, now);
  }

  lemma PrefixTransitive(a: seq<Call>, b: seq<Call>, c: seq<Call>)
    requires a <= b <= c
    ensures a <= c
  {
  }

  lemma {:induction false} TurnsTraceGrows(p: Pass, order: seq<nat>, n: nat, o: Oracle, now: nat)
    requires Indices(p.entries, order) && n <= |order|
    ensures Turns(p, order[..n], o, now).trace <= Turns(p, order, o, now).trace
    decreases |order|
  {
    if n < |order| {
      var front := order[..|order| - 1];
      assert front[..n] == order[..n];
      TurnsTraceGrows(p, front, n, o, now);
      LastTurnGrows(p, order, o, now);
      PrefixTransitive(Turns(p, order[..n], o, now).trace, Turns(p, front, o, now).trace, Turns(p, order, o, now).trace);
    } else {
      assert order[..n] == order;
    }
  }

  lemma DiesInTurns(live: seq<Entry>, order: seq<nat>, a: nat, b: nat, p: Pass, o: Oracle, now: nat)
    requires Indices(live, order) && a < b < |order| && live[order[a]].channel == live[order[b]].channel
    requires SentSoFar(live, order, 0, p) && o == AcceptUntil(2 * b + 1)
    ensures DiesAfterAccepting(Turns(p, order, o, now).trace)
  {
    AcceptedTurns(live, order, b, p, o, now);
    KilledTurn(live, order, a, b, Turns(p, order[..b], o, now), now);
    TurnsStep(p, order, b, o, now);
    TurnsTraceGrows(p, order, b + 1, o, now);
    DeathStays(Turns(p, order[..b + 1], o, now).trace, Turns(p, order, o, now).trace);
  }

  lemma SharedChannelDies(box: Box, now: nat, budget: nat, a: nat, b: nat)
    requires var live := Kept(ExpiredAt(now), box.entries);
             var order := SendOrder(live, now, budget);
             a < b < |order| && live[order[a]].channel == live[order[b]].channel
    ensures DiesAfterAccepting(DrainTrace(box, AcceptUntil(2 * b + 1), now, budget))
  {
    var live := Kept(ExpiredAt(now), box.entries);
    DiesInTurns(live, SendOrder(live, now, budget), a, b, Start(box, now), AcceptUntil(2 * b + 1), now);
  }

  ghost predicate CountsTwice(box: Box, o: Oracle, now: nat, budget: nat) {
    exists id :: SentThenBuried(id, Sending(box, o, now, budget))
  }

  /** Whether a drain can count a message twice is known before it runs: no session manager and no transport can make it
      do so if and only if no two of the messages it is about to send share a channel. */
  lemma NeverTwiceExactlyWhen(box: Box, now: nat, budget: nat)
    requires StrictIds(box.entries, box.nextId)
    ensures var live := Kept(ExpiredAt(now), box.entries);
            DistinctChannels(live, SendOrder(live, now, budget)) <==> forall o :: !CountsTwice(box, o, now, budget)
  {
    var live := Kept(ExpiredAt(now), box.entries);
    var order := SendOrder(live, now, budget);
    if a, b :| 0 <= a < b < |order| && live[order[a]].channel == live[order[b]].channel {
      var o := AcceptUntil(2 * b + 1);
      SharedChannelDies(box, now, budget, a, b);
      CountedTwiceExactlyWhen(box, o, now, budget);
      assert CountsTwice(box, o, now, budget);
    }
    if o :| CountsTwice(box, o, now, budget) {
      SendDiscipline(box, o, now, budget);
      CountedTwiceExactlyWhen(box, o, now, budget);
      DeathNeedsSharing(live, order, DrainTrace(box, o, now, budget));
    }
  }

  lemma DeathNeedsSharing(live: seq<Entry>, order: seq<nat>, t: seq<Call>)
    requires Indices(live, order) && TraceOk(live, order, |order|, t) && DiesAfterAccepting(t)
    ensures !DistinctChannels(live, order)
  {
    var i, j :| 0 <= i < j < |t| && Delivered(t[i]) && Killed(t[j]) && t[i].channel == t[j].channel;
    assert CallFits(t[i], live[order[t[i].slot]]) && CallFits(t[j], live[order[t[j].slot]]);
    assert t[j - 1].Seal? && t[j - 1].slot == t[j].slot;
    assert i != j - 1 && t[i].slot < t[j - 1].slot;
  }

  lemma SentOnce(id: nat, box: Box, o: Oracle, now: nat, budget: nat)
    requires StrictIds(box.entries, box.nextId) && SentThenBuried(id, Sending(box, o, now, budget))
    ensures id in Purged(box, o, now, budget).sentIds && Times(id, SentIds(DrainReport(box, o, now, budget).sent)) == 1
    ensures EntryTimes(id, box.entries) == 1
  {
    var p := Sending(box, o, now, budget);
    SendingAccount(id, box, o, now, budget);
    InSentIds(id, p);
    TimesPositive(id, p.sentIds);
    PurgeAllKeepsLists(p, SortedKeys(DeadChannels(p.failed)));
    LiveIds(id, box, now);
    StrictTimes(id, box.entries, box.nextId);
  }

  lemma SentIsGone(id: nat, box: Box, o: Oracle, now: nat, budget: nat)
    requires id in Purged(box, o, now, budget).sentIds
    ensures EntryTimes(id, Drained(box, o, now, budget).entries) == 0
  {
    var q := Purged(box, o, now, budget);
    SweptOut(id, q.sentIds, q.droppedIds, q.entries);
    TimesPositive(id, Ids(Drained(box, o, now, budget).entries));
  }

  /** What is counted twice is in the report twice, once as sent and once as dropped, and no longer in the queue. */
  lemma TwiceReported(id: nat, box: Box, o: Oracle, now: nat, budget: nat)
    requires StrictIds(box.entries, box.nextId) && SentThenBuried(id, Sending(box, o, now, budget))
    ensures var report := DrainReport(box, o, now, budget);
            && Times(id, SentIds(report.sent)) == 1 && Times(id, DroppedIds(report.dropped)) == 1
            && EntryTimes(id, Drained(box, o, now, budget).entries) == 0
  {
    SentOnce(id, box, o, now, budget);
    SentIsGone(id, box, o, now, budget);
    DrainConserves(id, box, o, now, budget);
  }

  lemma SweptOut(id: nat, a: seq<nat>, b: seq<nat>, s: seq<Entry>)
    requires id in a
    ensures id !in Ids(Kept(WithId(a + b), s))
  {
    var kept := Kept(WithId(a + b), s);
    forall i | 0 <= i < |kept| ensures kept[i].id != id {
      assert kept[i] in kept && !Hits(WithId(a + b), kept[i]);
    }
  }

  lemma LiveIds(id: nat, box: Box, now: nat)
    requires id in Ids(Kept(ExpiredAt(now), box.entries))
    ensures id in Ids(box.entries)
  {
    var live := Kept(ExpiredAt(now), box.entries);
    var i :| 0 <= i < |live| && Ids(live)[i] == id;
    InIds(live[i], box.entries);
  }

  // ---- how fast a queue empties ----

  predicate AllDue(entries: seq<Entry>, now: nat) {
    forall i :: 0 <= i < |entries| ==> entries[i].notBefore <= now && !Hits(ExpiredAt(now), entries[i])
  }

  lemma MissKept(r: Rule, front: seq<Entry>, e: Entry)
    requires !Hits(r, e)
    ensures Kept(r, front + [e]) == Kept(r, front) + [e] && Lost(r, front + [e]) == Lost(r, front)
  {
    assert (front + [e])[..|front|] == front;
  }

  lemma {:induction false} KeptAll(r: Rule, s: seq<Entry>)
    requires forall i :: 0 <= i < |s| ==> !Hits(r, s[i])
    ensures Kept(r, s) == s && Lost(r, s) == []
  {
    if s != [] {
      var n := |s| - 1;
      KeptAll(r, s[..n]);
      MissKept(r, s[..n], s[n]);
      LastBack(s);
    }
  }

  lemma LastBack(s: seq<Entry>)
    requires s != []
    ensures s[..|s| - 1] + [s[|s| - 1]] == s
  {
  }

  lemma {:induction false} KeptLength(r: Rule, s: seq<Entry>)
    ensures |Kept(r, s)| + |Lost(r, s)| == |s|
  {
    if s != [] {
      KeptLength(r, s[..|s| - 1]);
    }
  }

  /** Listing one more id takes one more entry. */
  lemma {:induction false} OneMoreLost(s: seq<Entry>, ids: seq<nat>, id: nat, bound: nat)
    requires StrictIds(s, bound) && id !in ids
    ensures |Lost(WithId(ids + [id]), s)| == |Lost(WithId(ids), s)| + if id in Ids(s) then 1 else 0
  {
    if s != [] {
      var front, e := s[..|s| - 1], s[|s| - 1];
      OneMoreLost(front, ids, id, bound);
      assert s == front + [e];
      IdsAppend(front, e);
      assert e.id in ids + [id] <==> e.id in ids || e.id == id;
    }
  }

  lemma {:induction false} VisitedLost(live: seq<Entry>, order: seq<nat>, bound: nat)
    requires StrictIds(live, bound) && Indices(live, order) && Distinct(order)
    ensures |Lost(WithId(Visited(live, order)), live)| == |order|
  {
    if order == [] {
      KeptAll(WithId([]), live);
      assert Visited(live, order) == [];
    } else {
      var n := |order| - 1;
      var before, id := Visited(live, order[..n]), live[order[n]].id;
      VisitedLost(live, order[..n], bound);
      assert Visited(live, order) == before + [id];
      NotVisitedYet(live, order, bound);
      assert Ids(live)[order[n]] == id;
      OneMoreLost(live, before, id, bound);
    }
  }

  lemma NotVisitedYet(live: seq<Entry>, order: seq<nat>, bound: nat)
    requires StrictIds(live, bound) && Indices(live, order) && Distinct(order) && order != []
    ensures var n := |order| - 1; live[order[n]].id !in Visited(live, order[..n])
  {
    var n := |order| - 1;
    var before := Visited(live, order[..n]);
    forall i | 0 <= i < |before| ensures before[i] != live[order[n]].id {
      assert order[i] != order[n];
    }
  }

  lemma AcceptedSending(live: seq<Entry>, order: seq<nat>, p: Pass, o: Oracle, now: nat)
    requires Indices(live, order) && SentSoFar(live, order, 0, p) && AcceptsUntil(o, 2 * |order|)
    ensures var q := Turns(p, order, o, now);
            q.entries == live && q.sentIds == Visited(live, order) == SentIds(q.report.sent) && q.droppedIds == []
            && q.failed == map[]
  {
    assert order[..|order|] == order;
    AcceptedTurns(live, order, |order|, p, o, now);
  }

  lemma NothingDead()
    ensures SortedKeys(DeadChannels(map[])) == []
  {
    assert DeadChannels(map[]) == {};
  }

  /** A drain of a due queue over a transport that accepts everything takes as many messages as the budget allows, and
      the rest stays due. */
  lemma DrainTakesBudget(box: Box, o: Oracle, now: nat, budget: nat)
    requires StrictIds(box.entries, box.nextId) && AllDue(box.entries, now) && AcceptsAll(o)
    ensures var after := Drained(box, o, now, budget);
            && |after.entries| == Max(|box.entries| - budget, 0)
            && StrictIds(after.entries, after.nextId) && AllDue(after.entries, now)
  {
    var order := SendOrder(box.entries, now, budget);
    DrainedIs(box, o, now, budget);
    SendOrderOrdered(box.entries, now, budget, box.nextId);
    OrderLength(box.entries, now, budget, box.nextId);
    VisitedLost(box.entries, order, box.nextId);
    KeptLength(WithId(Visited(box.entries, order)), box.entries);
    KeptStrict(WithId(Visited(box.entries, order)), box.entries, box.nextId);
    KeptDue(WithId(Visited(box.entries, order)), box.entries, now);
  }

  lemma DrainedIs(box: Box, o: Oracle, now: nat, budget: nat)
    requires AllDue(box.entries, now) && AcceptsAll(o)
    ensures Drained(box, o, now, budget)
         == Box(Kept(WithId(Visited(box.entries, SendOrder(box.entries, now, budget))), box.entries), box.nextId)
  {
    var order := SendOrder(box.entries, now, budget);
    KeptAll(ExpiredAt(now), box.entries);
    AcceptedSending(box.entries, order, Start(box, now), o, now);
    NothingDead();
    var p := Sending(box, o, now, budget);
    assert p.sentIds + p.droppedIds == Visited(box.entries, order);
  }

  lemma KeptDue(r: Rule, s: seq<Entry>, now: nat)
    requires AllDue(s, now)
    ensures AllDue(Kept(r, s), now)
  {
    forall i | 0 <= i < |Kept(r, s)|
      ensures Kept(r, s)[i].notBefore <= now && !Hits(ExpiredAt(now), Kept(r, s)[i])
    {
      assert Kept(r, s)[i] in s;
    }
  }

  lemma {:induction false} AllAreDue(s: seq<Entry>, now: nat)
    requires AllDue(s, now)
    ensures |DueIndices(s, now)| == |s|
  {
    if s != [] {
      AllAreDue(s[..|s| - 1], now);
    }
  }

  lemma OrderLength(s: seq<Entry>, now: nat, budget: nat, bound: nat)
    requires AllDue(s, now) && StrictIds(s, bound)
    ensures |SendOrder(s, now, budget)| == Min(budget, |s|)
  {
    AllAreDue(s, now);
    DueExactly(s, now);
    SortOrdered(s, DueIndices(s, now), bound);
  }

  /** What is left of a due queue after some passes. */
  predicate Left(n: nat, after: Box, now: nat, budget: nat, passes: nat) {
    && |after.entries| == Max(n - passes * budget, 0)
    && StrictIds(after.entries, after.nextId) && AllDue(after.entries, now)
  }

  lemma OneMorePass(passes: nat, budget: nat, n: nat)
    ensures Max(Max(n - passes * budget, 0) - budget, 0) == Max(n - (passes + 1) * budget, 0)
  {
    assert (passes + 1) * budget == passes * budget + budget;
  }

  lemma NextPass(n: nat, before: Box, o: Oracle, now: nat, budget: nat, passes: nat)
    requires Left(n, before, now, budget, passes) && AcceptsAll(o)
    ensures Left(n, Drained(before, o, now, budget), now, budget, passes + 1)
  {
    DrainTakesBudget(before, o, now, budget);
    OneMorePass(passes, budget, n);
  }

  /** The queue as one pass after another leaves it. */
  predicate Passes(boxes: seq<Box>, o: Oracle, now: nat, budget: nat) {
    boxes != [] && forall i :: 0 <= i < |boxes| - 1 ==> boxes[i + 1] == Drained(boxes[i], o, now, budget)
  }

  lemma {:induction false} PassesLeave(boxes: seq<Box>, o: Oracle, now: nat, budget: nat, passes: nat)
    requires Passes(boxes, o, now, budget) && passes < |boxes| && AcceptsAll(o)
    requires StrictIds(boxes[0].entries, boxes[0].nextId) && AllDue(boxes[0].entries, now)
    ensures Left(|boxes[0].entries|, boxes[passes], now, budget, passes)
  {
    if passes > 0 {
      PassesLeave(boxes, o, now, budget, passes - 1);
      NextPass(|boxes[0].entries|, boxes[passes - 1], o, now, budget, passes - 1);
      assert boxes[passes - 1 + 1] == Drained(boxes[passes - 1], o, now, budget);
    }
  }

  /** Progress. Over a transport that accepts everything, repeated passes empty a due queue exactly once budget times
      passes has reached its length. */
  lemma EmptiesExactlyWhen(boxes: seq<Box>, o: Oracle, now: nat, budget: nat, passes: nat)
    requires Passes(boxes, o, now, budget) && passes < |boxes| && AcceptsAll(o)
    requires StrictIds(boxes[0].entries, boxes[0].nextId) && AllDue(boxes[0].entries, now)
    ensures boxes[passes].entries == [] <==> passes * budget >= |boxes[0].entries|
  {
    PassesLeave(boxes, o, now, budget, passes);
  }
}
