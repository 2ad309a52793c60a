/** What the reports of a drain say, and what becomes of the entries it attempted. */
module OutboxOutcomes {
  import opened Wrappers
  import opened StringOrder
  import opened OutboxModel
  import opened OutboxQueue
  import opened OutboxOrder
  import opened OutboxPass
  import opened OutboxConservation
  import opened OutboxDiscipline

  // ---- attempts and backoff ----

  lemma {:induction false} Pow2AtLeast(n: nat)
    requires n >= 5
    ensures Pow2(n) >= 32
  {
    if n > 5 {
      Pow2AtLeast(n - 1);
    } else {
      assert Pow2(5) == 2 * Pow2(4) && Pow2(4) == 2 * Pow2(3) && Pow2(3) == 2 * Pow2(2);
      assert Pow2(2) == 2 * Pow2(1) && Pow2(1) == 2;
    }
  }

  /** The waits are 30, 60, 120, 240 and 480 seconds and a quarter of an hour ever after: the limit on the exponent is
      never felt. A queued entry never waits the first of them, since its attempts are counted before it is backed off. */
  lemma BackoffSchedule(attempts: nat)
    ensures attempts < 5 ==> BackoffFor(attempts) == [30, 60, 120, 240, 480][attempts]
    ensures attempts >= 5 ==> BackoffFor(attempts) == 900
    ensures forall e: Entry, now :: 60 <= BackedOff(e, now).notBefore - now <= 900
  {
    assert Pow2(1) == 2 && Pow2(2) == 4 && Pow2(3) == 8 && Pow2(4) == 16;
    if attempts >= 5 {
      Pow2AtLeast(Min(attempts, 16));
    }
    forall e: Entry, now ensures 60 <= BackedOff(e, now).notBefore - now <= 900 {
      Pow2AtLeastTwo(Min(e.attempts + 1, 16));
    }
  }

  lemma {:induction false} Pow2AtLeastTwo(n: nat)
    requires n >= 1
    ensures Pow2(n) >= 2
  {
    if n > 1 {
      Pow2AtLeastTwo(n - 1);
    }
  }

  ghost predicate RetriedAt(order: seq<nat>, trace: seq<Call>, x: nat)
    requires InRange(trace, |order|)
  {
    exists i :: 0 <= i < |trace| && Retries(trace[i]) && order[trace[i].slot] == x
  }

  /** Entries whose attempt failed retryably are backed off once; all others are as they were. */
  ghost predicate AttemptsCounted(live: seq<Entry>, order: seq<nat>, now: nat, p: Pass)
    requires Indices(live, order)
  {
    && |p.entries| == |live| && InRange(p.trace, |order|)
    && (forall i :: 0 <= i < |p.trace| && Retries(p.trace[i]) ==>
          p.entries[order[p.trace[i].slot]] == BackedOff(live[order[p.trace[i].slot]], now))
    && (forall x :: 0 <= x < |live| ==> p.entries[x] == live[x] || RetriedAt(order, p.trace, x))
  }

  lemma RetriedAppend(order: seq<nat>, trace: seq<Call>, c: Call, x: nat)
    requires InRange(trace + [c], |order|) && InRange(trace, |order|) && RetriedAt(order, trace, x)
    ensures RetriedAt(order, trace + [c], x)
  {
    var i :| 0 <= i < |trace| && Retries(trace[i]) && order[trace[i].slot] == x;
    assert (trace + [c])[i] == trace[i];
  }

  lemma QuietCall(live: seq<Entry>, order: seq<nat>, now: nat, p: Pass, c: Call)
    requires Indices(live, order) && AttemptsCounted(live, order, now, p) && c.slot < |order| && !Retries(c)
    ensures AttemptsCounted(live, order, now, Note(p, c))
  {
    forall x | 0 <= x < |live| && p.entries[x] != live[x] ensures RetriedAt(order, p.trace + [c], x) {
      RetriedAppend(order, p.trace, c, x);
    }
  }

  lemma RetryCall(live: seq<Entry>, order: seq<nat>, n: nat, now: nat, p: Pass, c: Call, reason: DeferReason)
    requires Indices(live, order) && Distinct(order) && n < |order| && AttemptsCounted(live, order, now, p)
    requires forall i :: 0 <= i < |p.trace| && Retries(p.trace[i]) ==> p.trace[i].slot < n
    requires c.slot == n && Retries(c)
    ensures AttemptsCounted(live, order, now, Retry(Note(p, c), order[n], reason, now))
  {
    var y := order[n];
    var t := p.trace + [c];
    assert !RetriedAt(order, p.trace, y);
    assert p.entries[y] == live[y];
    forall x | 0 <= x < |live| && p.entries[y := BackedOff(live[y], now)][x] != live[x]
      ensures RetriedAt(order, t, x)
    {
      if x == y {
        assert t[|p.trace|] == c;
      } else {
        RetriedAppend(order, p.trace, c, x);
      }
    }
  }

  lemma PostedAttempts(live: seq<Entry>, order: seq<nat>, n: nat, p: Pass, c: Call, now: nat)
    requires Indices(live, order) && Distinct(order) && n < |order| && AttemptsCounted(live, order, now, p)
    requires forall i :: 0 <= i < |p.trace| && Retries(p.trace[i]) ==> p.trace[i].slot < n
    requires c.Post? && c.slot == n
    ensures AttemptsCounted(live, order, now, Posted(Note(p, c), order[n], c.postAnswer, now))
  {
    if c.postAnswer.BackendError? {
      RetryCall(live, order, n, now, p, c, Unreachable(c.postAnswer.detail));
    } else {
      QuietCall(live, order, now, p, c);
    }
  }

  lemma TurnAttempts(live: seq<Entry>, order: seq<nat>, n: nat, p: Pass, o: Oracle, now: nat)
    requires Indices(live, order) && Distinct(order) && n < |order|
    requires AttemptsCounted(live, order, now, p) && InRange(p.trace, n)
    ensures AttemptsCounted(live, order, now, Turn(p, n, order[n], o, now))
  {
    var e := p.entries[order[n]];
    if e.channel !in p.failed {
      var sealing := o.seal(|p.trace|, e.peer, e.plaintext);
      var c := Seal(n, e.id, e.peer, e.plaintext, sealing);
      if !sealing.Sealed? {
        RetryCall(live, order, n, now, p, c, SealReason(sealing));
      } else {
        QuietCall(live, order, now, p, c);
        var q := Note(p, c);
        var outbound := Outbound(sealing.frame, e.highPriority, e.ttl);
        PostedAttempts(live, order, n, q, Post(n, e.id, e.channel, outbound, o.post(|q.trace|, e.channel, outbound)), now);
      }
    }
  }

  lemma StartInRange(live: seq<Entry>, order: seq<nat>, n: nat, p: Pass, o: Oracle, now: nat)
    requires Indices(live, order) && n <= |order| && p.entries == live && p.trace == [] && TableTrue(p)
    ensures InRange(Turns(p, order[..n], o, now).trace, n)
  {
    TurnsDisciplined(live, order, n, p, o, now);
  }

  lemma {:induction false} TurnsAttempts(live: seq<Entry>, order: seq<nat>, n: nat, p: Pass, o: Oracle, now: nat)
    requires Indices(live, order) && Distinct(order) && n <= |order| && p.entries == live && p.trace == []
    requires TableTrue(p)
    ensures AttemptsCounted(live, order, now, Turns(p, order[..n], o, now))
  {
    if n == 0 {
      StartAttempts(live, order, now, p);
      assert Turns(p, order[..n], o, now) == p;
    } else {
      var q := Turns(p, order[..n - 1], o, now);
      TurnsAttempts(live, order, n - 1, p, o, now);
      StartInRange(live, order, n - 1, p, o, now);
      TurnAttempts(live, order, n - 1, q, o, now);
      TurnsStep(p, order, n - 1, o, now);
    }
  }

  lemma StartAttempts(live: seq<Entry>, order: seq<nat>, now: nat, p: Pass)
    requires Indices(live, order) && p.entries == live && p.trace == []
    ensures AttemptsCounted(live, order, now, p)
  {
  }

  lemma SendingAttempts(box: Box, o: Oracle, now: nat, budget: nat)
    requires StrictIds(box.entries, box.nextId)
    ensures var live := Kept(ExpiredAt(now), box.entries);
            AttemptsCounted(live, SendOrder(live, now, budget), now, Sending(box, o, now, budget))
  {
    var live := Kept(ExpiredAt(now), box.entries);
    var order := SendOrder(live, now, budget);
    KeptStrict(ExpiredAt(now), box.entries, box.nextId);
    assert Distinct(order) by { SendOrderOrdered(live, now, budget, box.nextId); }
    assert order[..|order|] == order;
    TurnsAttempts(live, order, |order|, Start(box, now), o, now);
  }

  /** A drain only ever removes entries after the sending loop. */
  lemma SurvivorsWereQueued(box: Box, o: Oracle, now: nat, budget: nat, e: Entry)
    requires e in Drained(box, o, now, budget).entries
    ensures e in Sending(box, o, now, budget).entries
  {
    var p := Sending(box, o, now, budget);
    PurgeAllEntries(e, p, SortedKeys(DeadChannels(p.failed)));
  }

  /** Whatever survives a drain either was not attempted and is unchanged, or was attempted once, and then
      has one more attempt and waits min(30 * 2^min(attempts, 16), 900) seconds from now. */
  lemma SurvivorsBackedOff(box: Box, o: Oracle, now: nat, budget: nat, e: Entry)
    requires StrictIds(box.entries, box.nextId)
    requires e in Drained(box, o, now, budget).entries
    ensures var live := Kept(ExpiredAt(now), box.entries);
            var order := SendOrder(live, now, budget);
            var trace := DrainTrace(box, o, now, budget);
            && InRange(trace, |order|)
            && exists x :: 0 <= x < |live| && e == if RetriedAt(order, trace, x) then BackedOff(live[x], now) else live[x]
  {
    var p := Sending(box, o, now, budget);
    SendingAttempts(box, o, now, budget);
    SurvivorsWereQueued(box, o, now, budget, e);
    var x :| 0 <= x < |p.entries| && p.entries[x] == e;
  }
}
