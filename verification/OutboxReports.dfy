/** What a drain's report says of the calls it made, when a message overtakes another, and exactly when the
    report counts an entry twice. */
module OutboxReports {
  import opened Wrappers
  import opened StringOrder
  import opened OutboxModel
  import opened OutboxQueue
  import opened OutboxOrder
  import opened OutboxPass
  import opened OutboxConservation
  import opened OutboxDiscipline

  // ---- the sent report is the accepted posts ----

  function Deliveries(trace: seq<Call>): (d: seq<Call>)
    ensures forall c :: c in d <==> c in trace && Delivered(c)
  {
    if trace == [] then [] else
      Deliveries(trace[..|trace| - 1]) + if Delivered(trace[|trace| - 1]) then [trace[|trace| - 1]] else []
  }

  predicate Records(live: seq<Entry>, order: seq<nat>, now: nat, s: Sent, c: Call)
    requires Indices(live, order)
  {
    && c.Post? && c.slot < |order|
    && s.id == live[order[c.slot]].id && s.peer == live[order[c.slot]].peer && s.channel == c.channel
    && c.postAnswer == Accepted(s.messageId) && s.queuedFor == Max(now - live[order[c.slot]].enqueuedAt, 0)
  }

  /** The sent report lists, in order, exactly the posts the transport accepted. */
  predicate SentExact(live: seq<Entry>, order: seq<nat>, now: nat, p: Pass)
    requires Indices(live, order)
  {
    && |p.report.sent| == |Deliveries(p.trace)|
    && forall k :: 0 <= k < |p.report.sent| ==> Records(live, order, now, p.report.sent[k], Deliveries(p.trace)[k])
  }

  lemma DeliveriesAppend(trace: seq<Call>, c: Call)
    ensures Deliveries(trace + [c]) == Deliveries(trace) + if Delivered(c) then [c] else []
  {
    assert (trace + [c])[..|trace|] == trace;
  }

  lemma QuietSent(live: seq<Entry>, order: seq<nat>, now: nat, p: Pass, c: Call)
    requires Indices(live, order) && SentExact(live, order, now, p) && !Delivered(c)
    ensures SentExact(live, order, now, Note(p, c))
  {
    DeliveriesAppend(p.trace, c);
  }

  lemma PostSent(live: seq<Entry>, order: seq<nat>, n: nat, p: Pass, c: Call, now: nat)
    requires Indices(live, order) && n < |order| && SameQueue(live, p.entries) && SentExact(live, order, now, p)
    requires c.Post? && c.slot == n && c.channel == live[order[n]].channel
    ensures SentExact(live, order, now, Posted(Note(p, c), order[n], c.postAnswer, now))
  {
    var e := p.entries[order[n]];
    assert SameMessage(e, live[order[n]]);
    DeliveriesAppend(p.trace, c);
    if c.postAnswer.Accepted? {
      assert Records(live, order, now, MarkSent(p, e, c.postAnswer.messageId, now).report.sent[|p.report.sent|], c);
    }
  }

  lemma TurnSent(live: seq<Entry>, order: seq<nat>, n: nat, p: Pass, o: Oracle, now: nat)
    requires Indices(live, order) && n < |order| && SameQueue(live, p.entries) && SentExact(live, order, now, p)
    ensures SentExact(live, order, now, Turn(p, n, order[n], o, now))
  {
    var e := p.entries[order[n]];
    assert SameMessage(e, live[order[n]]);
    if e.channel !in p.failed {
      var sealing := o.seal(|p.trace|, e.peer, e.plaintext);
      var c := Seal(n, e.id, e.peer, e.plaintext, sealing);
      QuietSent(live, order, now, p, c);
      if sealing.Sealed? {
        var q := Note(p, c);
        var outbound := Outbound(sealing.frame, e.highPriority, e.ttl);
        PostSent(live, order, n, q, Post(n, e.id, e.channel, outbound, o.post(|q.trace|, e.channel, outbound)), now);
      }
    }
  }

  lemma TurnKeepsQueue(live: seq<Entry>, p: Pass, slot: nat, x: nat, o: Oracle, now: nat)
    requires SameQueue(live, p.entries) && x < |live|
    ensures SameQueue(live, Turn(p, slot, x, o, now).entries)
  {
    assert SameMessage(p.entries[x], live[x]);
  }

  lemma NextSent(live: seq<Entry>, order: seq<nat>, n: nat, p: Pass, o: Oracle, now: nat)
    requires Indices(live, order) && n < |order| && Indices(p.entries, order)
    requires SameQueue(live, Turns(p, order[..n], o, now).entries)
    requires SentExact(live, order, now, Turns(p, order[..n], o, now))
    ensures SameQueue(live, Turns(p, order[..n + 1], o, now).entries)
    ensures SentExact(live, order, now, Turns(p, order[..n + 1], o, now))
  {
    var q := Turns(p, order[..n], o, now);
    TurnSent(live, order, n, q, o, now);
    TurnKeepsQueue(live, q, n, order[n], o, now);
    TurnsStep(p, order, n, o, now);
  }

  lemma {:induction false} TurnsSent(live: seq<Entry>, order: seq<nat>, n: nat, p: Pass, o: Oracle, now: nat)
    requires Indices(live, order) && n <= |order| && SameQueue(live, p.entries)
    requires p.trace == [] && p.report.sent == []
    ensures SameQueue(live, Turns(p, order[..n], o, now).entries)
    ensures SentExact(live, order, now, Turns(p, order[..n], o, now))
  {
    if n > 0 {
      TurnsSent(live, order, n - 1, p, o, now);
      NextSent(live, order, n - 1, p, o, now);
    } else {
      assert Turns(p, order[..n], o, now) == p;
      assert SentExact(live, order, now, p);
    }
  }

  lemma SentReportExact(box: Box, o: Oracle, now: nat, budget: nat)
    requires StrictIds(box.entries, box.nextId)
    ensures var live := Kept(ExpiredAt(now), box.entries);
            SentExact(live, SendOrder(live, now, budget), now, Sending(box, o, now, budget))
    ensures DrainReport(box, o, now, budget).sent == Sending(box, o, now, budget).report.sent
  {
    var live := Kept(ExpiredAt(now), box.entries);
    var order := SendOrder(live, now, budget);
    assert order[..|order|] == order;
    TurnsSent(live, order, |order|, Start(box, now), o, now);
    var p := Sending(box, o, now, budget);
    PurgeAllKeepsLists(p, SortedKeys(DeadChannels(p.failed)));
  }

  // ---- exactly when a report counts an entry twice ----

  /** The transport accepted a send on a channel and later in the same pass called that channel dead. */
  ghost predicate DiesAfterAccepting(trace: seq<Call>) {
    exists i, j :: 0 <= i < j < |trace| && Delivered(trace[i]) && Killed(trace[j])
                   && trace[i].channel == trace[j].channel
  }

  lemma KilledLater(live: seq<Entry>, order: seq<nat>, p: Pass, i: nat)
    requires Indices(live, order) && Disciplined(live, order, |order|, p)
    requires i < |p.trace| && Delivered(p.trace[i]) && Dead(p, p.trace[i].channel)
    ensures DiesAfterAccepting(p.trace)
  {
    var c := p.trace[i].channel;
    assert FailedOn(p.trace, c);
    var j :| 0 <= j < |p.trace| && Failed(p.trace[j]) && p.trace[j].channel == c;
    assert Killed(p.trace[j]);
    assert CallFits(p.trace[i], live[order[p.trace[i].slot]]);
    assert !(j < i);
    assert i < j;
  }

  lemma BuriedWasDelivered(live: seq<Entry>, order: seq<nat>, now: nat, p: Pass, id: nat)
    requires Indices(live, order) && Disciplined(live, order, |order|, p) && SentExact(live, order, now, p)
    requires SentThenBuried(id, p)
    ensures DiesAfterAccepting(p.trace)
  {
    var d := Deliveries(p.trace);
    var k :| 0 <= k < |p.report.sent| && p.report.sent[k].id == id && Dead(p, p.report.sent[k].channel);
    assert Records(live, order, now, p.report.sent[k], d[k]);
    assert d[k] in p.trace;
    var i :| 0 <= i < |p.trace| && p.trace[i] == d[k];
    KilledLater(live, order, p, i);
  }

  lemma DeadDeliveryIsBuried(live: seq<Entry>, order: seq<nat>, now: nat, p: Pass)
    requires Indices(live, order) && TableTrue(p) && SentExact(live, order, now, p)
    requires DiesAfterAccepting(p.trace)
    ensures exists id :: SentThenBuried(id, p)
  {
    var d := Deliveries(p.trace);
    var i, j :| 0 <= i < j < |p.trace| && Delivered(p.trace[i]) && Killed(p.trace[j])
                && p.trace[i].channel == p.trace[j].channel;
    assert p.trace[i] in d;
    var k :| 0 <= k < |d| && d[k] == p.trace[i];
    assert Records(live, order, now, p.report.sent[k], d[k]);
    assert Failed(p.trace[j]);
    assert SentThenBuried(p.report.sent[k].id, p);
  }

  /** A drain reports some entry both sent and dropped if and only if the transport first accepts a send on a
      channel and later in that pass answers that the channel is retired or unknown. */
  lemma CountedTwiceExactlyWhen(box: Box, o: Oracle, now: nat, budget: nat)
    requires StrictIds(box.entries, box.nextId)
    ensures (exists id :: SentThenBuried(id, Sending(box, o, now, budget)))
       <==> DiesAfterAccepting(DrainTrace(box, o, now, budget))
  {
    var live := Kept(ExpiredAt(now), box.entries);
    var order := SendOrder(live, now, budget);
    var p := Sending(box, o, now, budget);
    SendDiscipline(box, o, now, budget);
    SentReportExact(box, o, now, budget);
    if id :| SentThenBuried(id, p) {
      BuriedWasDelivered(live, order, now, p, id);
    }
    if DiesAfterAccepting(p.trace) {
      DeadDeliveryIsBuried(live, order, now, p);
    }
  }

  // ---- overtaking ----

  ghost predicate BlockedBy(live: seq<Entry>, order: seq<nat>, trace: seq<Call>, j: nat)
    requires Indices(live, order) && j < |order|
  {
    exists i :: 0 <= i < |trace| && Failed(trace[i]) && trace[i].slot < j
                && trace[i].channel == live[order[j]].channel
  }

  ghost predicate SealRefused(trace: seq<Call>, j: nat) {
    exists i :: 0 <= i < |trace| && trace[i].slot == j && trace[i].Seal? && !trace[i].sealAnswer.Sealed?
  }

  ghost predicate WasPosted(trace: seq<Call>, j: nat) {
    exists i :: 0 <= i < |trace| && trace[i].slot == j && trace[i].Post?
  }

  ghost predicate WasDelivered(trace: seq<Call>, j: nat) {
    exists i :: 0 <= i < |trace| && trace[i].slot == j && Delivered(trace[i])
  }

  /** Every entry visited met an earlier failure on its channel, could not be sealed, or was posted. */
  ghost predicate Answered(live: seq<Entry>, order: seq<nat>, n: nat, trace: seq<Call>)
    requires Indices(live, order) && n <= |order|
  {
    forall j :: 0 <= j < n ==> BlockedBy(live, order, trace, j) || SealRefused(trace, j) || WasPosted(trace, j)
  }

  lemma AnsweredExtends(live: seq<Entry>, order: seq<nat>, j: nat, trace: seq<Call>, more: seq<Call>)
    requires Indices(live, order) && j < |order|
    requires BlockedBy(live, order, trace, j) || SealRefused(trace, j) || WasPosted(trace, j)
    ensures BlockedBy(live, order, trace + more, j) || SealRefused(trace + more, j) || WasPosted(trace + more, j)
  {
    var t := trace + more;
    assert forall i :: 0 <= i < |trace| ==> t[i] == trace[i];
    if BlockedBy(live, order, trace, j) {
      var i :| 0 <= i < |trace| && Failed(trace[i]) && trace[i].slot < j
               && trace[i].channel == live[order[j]].channel;
      assert t[i] == trace[i];
    } else if SealRefused(trace, j) {
      var i :| 0 <= i < |trace| && trace[i].slot == j && trace[i].Seal? && !trace[i].sealAnswer.Sealed?;
      assert t[i] == trace[i];
    } else {
      var i :| 0 <= i < |trace| && trace[i].slot == j && trace[i].Post?;
      assert t[i] == trace[i];
    }
  }

  /** The calls one turn adds. */
  lemma TurnTrace(p: Pass, n: nat, x: nat, o: Oracle, now: nat)
    requires x < |p.entries|
    ensures var t := Turn(p, n, x, o, now).trace;
            && p.trace <= t
            && (if p.entries[x].channel in p.failed then t == p.trace
                else |t| > |p.trace| && t[|t| - 1].slot == n
                     && (t[|t| - 1].Seal? ==> !t[|t| - 1].sealAnswer.Sealed?))
  {
  }

  lemma LastAnswered(live: seq<Entry>, order: seq<nat>, n: nat, p: Pass, o: Oracle, now: nat)
    requires Indices(live, order) && n < |order| && Disciplined(live, order, n, p)
    ensures var t := Turn(p, n, order[n], o, now).trace;
            BlockedBy(live, order, t, n) || SealRefused(t, n) || WasPosted(t, n)
  {
    var t := Turn(p, n, order[n], o, now).trace;
    TurnTrace(p, n, order[n], o, now);
    assert SameMessage(p.entries[order[n]], live[order[n]]);
    if live[order[n]].channel in p.failed {
      assert FailedOn(p.trace, live[order[n]].channel);
    } else {
      assert t[|t| - 1].slot == n;
    }
  }

  lemma TurnAnswered(live: seq<Entry>, order: seq<nat>, n: nat, p: Pass, o: Oracle, now: nat)
    requires Indices(live, order) && n < |order| && Disciplined(live, order, n, p)
    requires Answered(live, order, n, p.trace)
    ensures Answered(live, order, n + 1, Turn(p, n, order[n], o, now).trace)
  {
    var t := Turn(p, n, order[n], o, now).trace;
    TurnTrace(p, n, order[n], o, now);
    LastAnswered(live, order, n, p, o, now);
    var more := t[|p.trace|..];
    assert t == p.trace + more;
    forall j | 0 <= j < n ensures BlockedBy(live, order, t, j) || SealRefused(t, j) || WasPosted(t, j) {
      AnsweredExtends(live, order, j, p.trace, more);
    }
  }

  lemma NextAnswered(live: seq<Entry>, order: seq<nat>, n: nat, p: Pass, o: Oracle, now: nat)
    requires Indices(live, order) && n < |order| && Disciplined(live, order, 0, p) && p.trace == []
    requires Indices(p.entries, order) && Answered(live, order, n, Turns(p, order[..n], o, now).trace)
    ensures Answered(live, order, n + 1, Turns(p, order[..n + 1], o, now).trace)
  {
    TurnsDisciplined(live, order, n, p, o, now);
    TurnAnswered(live, order, n, Turns(p, order[..n], o, now), o, now);
    TurnsStep(p, order, n, o, now);
  }

  lemma {:induction false} TurnsAnswered(live: seq<Entry>, order: seq<nat>, n: nat, p: Pass, o: Oracle, now: nat)
    requires Indices(live, order) && n <= |order| && Disciplined(live, order, 0, p) && p.trace == []
    requires Indices(p.entries, order)
    ensures Answered(live, order, n, Turns(p, order[..n], o, now).trace)
  {
    if n > 0 {
      TurnsAnswered(live, order, n - 1, p, o, now);
      NextAnswered(live, order, n - 1, p, o, now);
    }
  }

  lemma NotBlockedBefore(live: seq<Entry>, order: seq<nat>, t: seq<Call>, a: nat, k: nat)
    requires Indices(live, order) && TraceOk(live, order, |order|, t) && a < |order| && k < |t|
    requires a < t[k].slot && live[order[t[k].slot]].channel == live[order[a]].channel
    ensures forall i :: 0 <= i < |t| && Failed(t[i]) && t[i].channel == live[order[a]].channel ==> k <= i
    ensures !BlockedBy(live, order, t, a)
  {
    forall i | 0 <= i < |t| && Failed(t[i]) && t[i].channel == live[order[a]].channel ensures k <= i {
    }
  }

  /** Within the pass, an entry ahead of a delivered one on the same channel was delivered too, unless its
      own sealing was refused. */
  lemma EarlierIsDelivered(live: seq<Entry>, order: seq<nat>, p: Pass, a: nat, b: nat)
    requires Indices(live, order) && Disciplined(live, order, |order|, p)
    requires Answered(live, order, |order|, p.trace)
    requires a < b < |order| && live[order[a]].channel == live[order[b]].channel && WasDelivered(p.trace, b)
    ensures WasDelivered(p.trace, a) <==> !SealRefused(p.trace, a)
  {
    var t := p.trace;
    var k :| 0 <= k < |t| && t[k].slot == b && Delivered(t[k]);
    NotBlockedBefore(live, order, t, a, k);
    assert WasDelivered(t, a) ==> WasPosted(t, a);
    if WasPosted(t, a) {
      var i :| 0 <= i < |t| && t[i].slot == a && t[i].Post?;
      assert CallFits(t[i], live[order[a]]);
      assert i < k;
      assert !Failed(t[i]);
      assert t[i - 1].Seal? && t[i - 1].slot == a;
      OneSealPerSlot(t, i - 1);
    }
  }

  lemma OneSealPerSlot(t: seq<Call>, i: nat)
    requires FollowsOrder(t) && i < |t| && t[i].Seal? && t[i].sealAnswer.Sealed?
    ensures !SealRefused(t, t[i].slot)
  {
  }

  lemma SlotBefore(live: seq<Entry>, order: seq<nat>, a: nat, b: nat)
    requires Indices(live, order) && StrictlyOrdered(live, order) && a < |order| && b < |order|
    requires Before(live[order[a]], live[order[b]])
    ensures a < b
  {
  }

  lemma SlotUnique(live: seq<Entry>, order: seq<nat>, x: nat, a: nat)
    requires Indices(live, order) && StrictlyOrdered(live, order) && a < |order| && order[a] == x
    ensures forall b :: 0 <= b < |order| && order[b] == x ==> b == a
  {
  }

  lemma DueAheadIsTaken(live: seq<Entry>, now: nat, budget: nat, bound: nat, x: nat, y: nat)
    requires StrictIds(live, bound) && x < |live| && live[x].notBefore <= now
    requires y in SendOrder(live, now, budget) && y < |live| && Before(live[x], live[y])
    ensures x in SendOrder(live, now, budget)
  {
    if x !in SendOrder(live, now, budget) {
      BudgetTakesTheFirst(live, now, budget, bound, x);
    }
  }

  /** The pass sends the entry at index `x`. */
  ghost predicate SendsIndex(order: seq<nat>, trace: seq<Call>, x: nat) {
    exists a :: 0 <= a < |order| && order[a] == x && WasDelivered(trace, a)
  }

  /** The pass tries to seal the entry at index `x` and the session refuses. */
  ghost predicate RefusesIndex(order: seq<nat>, trace: seq<Call>, x: nat) {
    exists a :: 0 <= a < |order| && order[a] == x && SealRefused(trace, a)
  }

  lemma TraceAnswered(box: Box, o: Oracle, now: nat, budget: nat)
    ensures var live := Kept(ExpiredAt(now), box.entries);
            var order := SendOrder(live, now, budget);
            Answered(live, order, |order|, DrainTrace(box, o, now, budget))
  {
    var live := Kept(ExpiredAt(now), box.entries);
    var order := SendOrder(live, now, budget);
    assert order[..|order|] == order;
    TurnsAnswered(live, order, |order|, Start(box, now), o, now);
  }

  /** An entry that comes before a sent one of its channel, in the order of sending, is sent too if and only if it is
      due and its session does not refuse it. */
  lemma AheadIsSentExactlyWhen(box: Box, o: Oracle, now: nat, budget: nat, x: nat, y: nat)
    requires StrictIds(box.entries, box.nextId)
    requires var live := Kept(ExpiredAt(now), box.entries);
             && x < |live| && y < |live| && Before(live[x], live[y]) && live[x].channel == live[y].channel
    requires SendsIndex(SendOrder(Kept(ExpiredAt(now), box.entries), now, budget), DrainTrace(box, o, now, budget), y)
    ensures var live := Kept(ExpiredAt(now), box.entries);
            var order := SendOrder(live, now, budget);
            var trace := DrainTrace(box, o, now, budget);
            !SendsIndex(order, trace, x) <==> live[x].notBefore > now || RefusesIndex(order, trace, x)
  {
    var live := Kept(ExpiredAt(now), box.entries);
    var order := SendOrder(live, now, budget);
    var p := Sending(box, o, now, budget);
    SendDiscipline(box, o, now, budget);
    TraceAnswered(box, o, now, budget);
    KeptStrict(ExpiredAt(now), box.entries, box.nextId);
    var b :| 0 <= b < |order| && order[b] == y && WasDelivered(p.trace, b);
    if x in order {
      var a :| 0 <= a < |order| && order[a] == x;
      SlotBefore(live, order, a, b);
      SlotUnique(live, order, x, a);
      EarlierIsDelivered(live, order, p, a, b);
      SendOrderOrdered(live, now, budget, box.nextId);
    } else if live[x].notBefore <= now {
      DueAheadIsTaken(live, now, budget, box.nextId, x, y);
    }
  }

  /** The pass has the entry at index `x` accepted, and then the one at `y`. */
  ghost predicate SentAhead(order: seq<nat>, trace: seq<Call>, x: nat, y: nat) {
    exists i, k :: 0 <= i < k < |trace| && Delivered(trace[i]) && Delivered(trace[k])
                   && trace[i].slot < |order| && order[trace[i].slot] == x
                   && trace[k].slot < |order| && order[trace[k].slot] == y
  }

  lemma SentAheadBySlots(order: seq<nat>, trace: seq<Call>, a: nat, b: nat)
    requires FollowsOrder(trace) && a < b < |order| && WasDelivered(trace, a) && WasDelivered(trace, b)
    ensures SentAhead(order, trace, order[a], order[b])
  {
    var i :| 0 <= i < |trace| && trace[i].slot == a && Delivered(trace[i]);
    var k :| 0 <= k < |trace| && trace[k].slot == b && Delivered(trace[k]);
    assert i < k;
  }

  lemma SentAheadNeeds(live: seq<Entry>, order: seq<nat>, trace: seq<Call>, x: nat, y: nat)
    requires Indices(live, order) && StrictlyOrdered(live, order) && FollowsOrder(trace)
    requires x < |live| && y < |live| && x != y && SentAhead(order, trace, x, y)
    ensures SendsIndex(order, trace, x) && Before(live[x], live[y])
  {
    var i, k :| 0 <= i < k < |trace| && Delivered(trace[i]) && Delivered(trace[k])
                && trace[i].slot < |order| && order[trace[i].slot] == x
                && trace[k].slot < |order| && order[trace[k].slot] == y;
    assert WasDelivered(trace, trace[i].slot);
    assert trace[i].slot <= trace[k].slot;
  }

  /** Of two entries, what can put the one queued later first: urgency, or a clock set back in between. */
  predicate Outranks(later: Entry, earlier: Entry) {
    || (later.highPriority && !earlier.highPriority)
    || (later.highPriority == earlier.highPriority && later.enqueuedAt < earlier.enqueuedAt)
  }

  lemma BeforeUnlessOutranked(e: Entry, f: Entry)
    requires e.id < f.id
    ensures Before(e, f) <==> !Outranks(f, e)
  {
  }

  /** Overtaking. Of two entries on one channel, the one queued later goes out without the earlier one going out ahead of
      it in the pass if and only if the earlier one is still backed off, or its session refuses it, or the later one is
      urgent and the earlier one is not, or both are alike in that and the clock showed an earlier time when the later
      one was queued. */
  lemma OvertakenExactlyWhen(box: Box, o: Oracle, now: nat, budget: nat, x: nat, y: nat)
    requires StrictIds(box.entries, box.nextId)
    requires var live := Kept(ExpiredAt(now), box.entries); x < y < |live| && live[x].channel == live[y].channel
    requires SendsIndex(SendOrder(Kept(ExpiredAt(now), box.entries), now, budget), DrainTrace(box, o, now, budget), y)
    ensures var live := Kept(ExpiredAt(now), box.entries);
            var order := SendOrder(live, now, budget);
            var trace := DrainTrace(box, o, now, budget);
            !SentAhead(order, trace, x, y) <==>
              live[x].notBefore > now || RefusesIndex(order, trace, x) || Outranks(live[y], live[x])
  {
    var live := Kept(ExpiredAt(now), box.entries);
    var order := SendOrder(live, now, budget);
    var trace := DrainTrace(box, o, now, budget);
    SendDiscipline(box, o, now, budget);
    KeptStrict(ExpiredAt(now), box.entries, box.nextId);
    BeforeUnlessOutranked(live[x], live[y]);
    if SentAhead(order, trace, x, y) {
      SentAheadNeeds(live, order, trace, x, y);
    }
    if Before(live[x], live[y]) {
      AheadIsSentExactlyWhen(box, o, now, budget, x, y);
      if SendsIndex(order, trace, x) {
        SentInOrder(live, order, trace, x, y);
      }
    }
  }

  lemma SentInOrder(live: seq<Entry>, order: seq<nat>, trace: seq<Call>, x: nat, y: nat)
    requires Indices(live, order) && StrictlyOrdered(live, order) && FollowsOrder(trace)
    requires x < |live| && y < |live| && Before(live[x], live[y])
    requires SendsIndex(order, trace, x) && SendsIndex(order, trace, y)
    ensures SentAhead(order, trace, x, y)
  {
    var a :| 0 <= a < |order| && order[a] == x && WasDelivered(trace, a);
    var b :| 0 <= b < |order| && order[b] == y && WasDelivered(trace, b);
    SlotBefore(live, order, a, b);
    SentAheadBySlots(order, trace, a, b);
  }

  // ---- what was put off is still there ----

  lemma LostHasId(rule: Rule, s: seq<Entry>, e: Entry)
    requires e in s
    ensures Hits(rule, e) ==> e.id in Ids(Lost(rule, s))
  {
    if Hits(rule, e) {
      var i :| 0 <= i < |Lost(rule, s)| && Lost(rule, s)[i] == e;
      assert Ids(Lost(rule, s))[i] == e.id;
    }
  }

  lemma {:induction false} PurgeAllDeferred(d: Deferred, p: Pass, dead: seq<ChannelId>, e: Entry)
    requires d in PurgeAll(p, dead).report.deferred && e in p.entries && e.id == d.id
    ensures d in p.report.deferred && e in PurgeAll(p, dead).entries
  {
    if dead != [] {
      var n := |dead| - 1;
      var q := PurgeAll(p, dead[..n]);
      var rule := Backlog(dead[n], q.droppedIds);
      assert d in KeptDeferred(q.report.deferred, Ids(Lost(rule, q.entries)));
      PurgeAllDeferred(d, p, dead[..n], e);
      LostHasId(rule, q.entries, e);
    }
  }

  lemma DeferredOutlivesPurge(live: seq<Entry>, p: Pass, dead: seq<ChannelId>, d: Deferred) returns (e: Entry)
    requires SameQueue(live, p.entries) && Fates(d.id, p) <= 1 && (d.id !in Ids(live) ==> Fates(d.id, p) == 0)
    requires d in PurgeAll(p, dead).report.deferred
    ensures e in PurgeAll(p, dead).entries && e.id == d.id
    ensures d.id !in p.sentIds && d.id !in p.droppedIds
  {
    DeferredWasDeferred(d, p, dead);
    DeferredCounts(d, p);
    var x :| 0 <= x < |live| && Ids(live)[x] == d.id;
    e := p.entries[x];
    assert SameMessage(e, live[x]);
    PurgeAllDeferred(d, p, dead, e);
  }

  lemma StaysAfterSweep(box: Box, o: Oracle, now: nat, budget: nat, e: Entry)
    requires e in Purged(box, o, now, budget).entries
    requires e.id !in Sending(box, o, now, budget).sentIds && e.id !in Sending(box, o, now, budget).droppedIds
    ensures e in Drained(box, o, now, budget).entries
  {
    var p, q := Sending(box, o, now, budget), Purged(box, o, now, budget);
    assert q.sentIds == p.sentIds && q.droppedIds == p.droppedIds by {
      PurgeAllKeepsLists(p, SortedKeys(DeadChannels(p.failed)));
    }
    SweepKeeps(q.sentIds, q.droppedIds, q.entries, e);
  }

  lemma SweepKeeps(a: seq<nat>, b: seq<nat>, s: seq<Entry>, e: Entry)
    requires e in s && e.id !in a && e.id !in b
    ensures e in Kept(WithId(a + b), s)
  {
    assert !Hits(WithId(a + b), e);
  }

  /** A message reported as still waiting is still in the queue. */
  lemma DeferredStillQueued(box: Box, o: Oracle, now: nat, budget: nat, d: Deferred)
    requires StrictIds(box.entries, box.nextId)
    requires d in DrainReport(box, o, now, budget).deferred
    ensures d.id in Ids(Drained(box, o, now, budget).entries)
  {
    var p := Sending(box, o, now, budget);
    SendingAccount(d.id, box, o, now, budget);
    var e := DeferredOutlivesPurge(Kept(ExpiredAt(now), box.entries), p, SortedKeys(DeadChannels(p.failed)), d);
    StaysAfterSweep(box, o, now, budget, e);
    InIds(e, Drained(box, o, now, budget).entries);
  }

  lemma InIds(e: Entry, s: seq<Entry>)
    requires e in s
    ensures e.id in Ids(s)
  {
    var i :| 0 <= i < |s| && s[i] == e;
    assert Ids(s)[i] == e.id;
  }

  lemma {:induction false} DeferredWasDeferred(d: Deferred, p: Pass, dead: seq<ChannelId>)
    requires d in PurgeAll(p, dead).report.deferred
    ensures d in p.report.deferred
  {
    if dead != [] {
      DeferredWasDeferred(d, p, dead[..|dead| - 1]);
    }
  }

  lemma DeferredCounts(d: Deferred, p: Pass)
    requires d in p.report.deferred && Fates(d.id, p) <= 1
    ensures Fates(d.id, p) == 1 && d.id !in p.sentIds && d.id !in p.droppedIds
  {
    var ids := DeferredIds(p.report.deferred);
    var i :| 0 <= i < |p.report.deferred| && p.report.deferred[i] == d;
    assert ids[i] == d.id;
    TimesPositive(d.id, ids);
    TimesPositive(d.id, p.sentIds);
    TimesPositive(d.id, p.droppedIds);
  }
}
