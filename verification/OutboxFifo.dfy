/** First in, first out: on which runs a channel keeps the order its messages were queued in. */
module OutboxFifo {
  import opened Wrappers
  import opened StringOrder
  import opened OutboxModel
  import opened OutboxQueue
  import opened OutboxOrder
  import opened OutboxPass
  import opened OutboxConservation
  import opened OutboxOutcomes
  import opened OutboxReports
  import opened OutboxRuns

  /** Between two messages queued on one channel the clock is never set back. */
  predicate ClockForward(ops: seq<Op>) {
    forall i, j :: 0 <= i < j < |ops| && ops[i].Put? && ops[j].Put? && ops[i].message.channel == ops[j].message.channel ==>
      ops[i].at <= ops[j].at
  }

  /** The stamp of an entry is the time at which some message was queued on its channel. */
  ghost predicate Stamped(ops: seq<Op>, e: Entry) {
    exists i :: 0 <= i < |ops| && ops[i].Put? && ops[i].message.channel == e.channel && ops[i].at == e.enqueuedAt
  }

  /** On each channel, whatever was queued later bears no earlier stamp. */
  predicate StampsInOrder(s: seq<Entry>) {
    forall e, f :: e in s && f in s && e.channel == f.channel && e.id < f.id ==> e.enqueuedAt <= f.enqueuedAt
  }

  /** The entry was in the queue before, but for its attempts. */
  ghost predicate WasQueued(s: seq<Entry>, e: Entry) {
    exists f :: f in s && SameMessage(e, f)
  }

  /** The entry of the queue that a drain left as this one: not expired, and the same but for its attempts. */
  lemma CameFrom(box: Box, o: Oracle, now: nat, budget: nat, e: Entry) returns (f: Entry)
    requires StrictIds(box.entries, box.nextId) && e in Drained(box, o, now, budget).entries
    ensures f in box.entries && !Hits(ExpiredAt(now), f) && SameMessage(e, f)
  {
    var live := Kept(ExpiredAt(now), box.entries);
    SurvivorsWereQueued(box, o, now, budget, e);
    SendingAccount(e.id, box, o, now, budget);
    var p := Sending(box, o, now, budget);
    var x :| 0 <= x < |p.entries| && p.entries[x] == e;
    f := live[x];
    assert SameMessage(e, live[x]) && live[x] in live;
  }

  lemma DrainedWasQueued(box: Box, o: Oracle, now: nat, budget: nat, e: Entry)
    requires StrictIds(box.entries, box.nextId) && e in Drained(box, o, now, budget).entries
    ensures WasQueued(box.entries, e)
  {
    var f := CameFrom(box, o, now, budget, e);
  }

  lemma EnqueuedWasQueued(box: Box, m: Enqueue, now: nat, e: Entry)
    requires e in Enqueued(box, m, now).0.entries
    ensures e in box.entries || e == NewEntry(box.nextId, m, now)
  {
  }

  lemma StepWasQueued(box: Box, op: Op, e: Entry)
    requires StrictIds(box.entries, box.nextId) && e in After(box, op).entries
    ensures WasQueued(box.entries, e) || (op.Put? && e == NewEntry(box.nextId, op.message, op.at))
  {
    match op
    case Put(m, at) =>
      EnqueuedWasQueued(box, m, at, e);
      assert e in box.entries ==> SameMessage(e, e);
    case Drain(o, at, budget) => DrainedWasQueued(box, o, at, budget, e);
    case Forget(peer) => assert SameMessage(e, e);
    case Restart => assert SameMessage(e, e);
  }

  lemma StampedStays(ops: seq<Op>, op: Op, e: Entry, f: Entry)
    requires Stamped(ops, f) && SameMessage(e, f)
    ensures Stamped(ops + [op], e)
  {
    var i :| 0 <= i < |ops| && ops[i].Put? && ops[i].message.channel == f.channel && ops[i].at == f.enqueuedAt;
    assert (ops + [op])[i] == ops[i];
  }

  lemma {:induction false} RunStamped(ops: seq<Op>, e: Entry)
    requires e in Run(ops).entries
    ensures Stamped(ops, e)
  {
    var front, op := ops[..|ops| - 1], ops[|ops| - 1];
    assert ops == front + [op];
    ReachableInv(front);
    StepWasQueued(Run(front), op, e);
    if WasQueued(Run(front).entries, e) {
      var f :| f in Run(front).entries && SameMessage(e, f);
      RunStamped(front, f);
      StampedStays(front, op, e, f);
    } else {
      assert ops[|front|] == op;
    }
  }

  lemma LaterStamp(ops: seq<Op>, e: Entry)
    requires ops != [] && ClockForward(ops) && Stamped(ops[..|ops| - 1], e)
    requires ops[|ops| - 1].Put? && ops[|ops| - 1].message.channel == e.channel
    ensures e.enqueuedAt <= ops[|ops| - 1].at
  {
    var front := ops[..|ops| - 1];
    var i :| 0 <= i < |front| && front[i].Put? && front[i].message.channel == e.channel && front[i].at == e.enqueuedAt;
    assert ops[i] == front[i];
  }

  lemma NewIsLast(box: Box, m: Enqueue, at: nat, e: Entry)
    requires StrictIds(box.entries, box.nextId) && WasQueued(box.entries, e)
    ensures e.id < NewEntry(box.nextId, m, at).id
  {
    var f :| f in box.entries && SameMessage(e, f);
  }

  lemma PairInOrder(ops: seq<Op>, e: Entry, f: Entry)
    requires ops != [] && ClockForward(ops)
    requires var front := ops[..|ops| - 1]; StampsInOrder(Run(front).entries)
    requires e in Run(ops).entries && f in Run(ops).entries && e.channel == f.channel && e.id < f.id
    ensures e.enqueuedAt <= f.enqueuedAt
  {
    var front, op := ops[..|ops| - 1], ops[|ops| - 1];
    var box := Run(front);
    ReachableInv(front);
    StepWasQueued(box, op, e);
    StepWasQueued(box, op, f);
    if WasQueued(box.entries, e) {
      var d :| d in box.entries && SameMessage(e, d);
      if WasQueued(box.entries, f) {
        var g :| g in box.entries && SameMessage(f, g);
        assert d.enqueuedAt <= g.enqueuedAt;
      } else {
        RunStamped(front, d);
        LaterStamp(ops, d);
      }
    } else if WasQueued(box.entries, f) {
      NewIsLast(box, op.message, op.at, f);
    }
  }

  lemma {:induction false} RunInOrder(ops: seq<Op>)
    requires ClockForward(ops)
    ensures StampsInOrder(Run(ops).entries)
  {
    if ops != [] {
      var front := ops[..|ops| - 1];
      assert forall i :: 0 <= i < |front| ==> front[i] == ops[i];
      RunInOrder(front);
      forall e, f | e in Run(ops).entries && f in Run(ops).entries && e.channel == f.channel && e.id < f.id
        ensures e.enqueuedAt <= f.enqueuedAt
      {
        PairInOrder(ops, e, f);
      }
    }
  }

  /** On every run whose clock is not set back between messages of one channel, of two equally urgent ones the one queued
      later goes out first only past one that is backed off or that its session refuses: in queue order, a channel is
      first-in first-out among those that are due and can be sealed. */
  lemma RunsKeepOrder(ops: seq<Op>, o: Oracle, now: nat, budget: nat, x: nat, y: nat)
    requires ClockForward(ops)
    requires var live := Kept(ExpiredAt(now), Run(ops).entries);
             && x < y < |live| && live[x].channel == live[y].channel && live[x].highPriority == live[y].highPriority
    requires SendsIndex(SendOrder(Kept(ExpiredAt(now), Run(ops).entries), now, budget),
                        DrainTrace(Run(ops), o, now, budget), y)
    ensures var live := Kept(ExpiredAt(now), Run(ops).entries);
            var order := SendOrder(live, now, budget);
            var trace := DrainTrace(Run(ops), o, now, budget);
            !SentAhead(order, trace, x, y) <==> live[x].notBefore > now || RefusesIndex(order, trace, x)
  {
    var live := Kept(ExpiredAt(now), Run(ops).entries);
    ReachableInv(ops);
    RunInOrder(ops);
    KeptStrict(ExpiredAt(now), Run(ops).entries, Run(ops).nextId);
    assert live[x] in live && live[y] in live && live[x].id < live[y].id;
    OvertakenExactlyWhen(Run(ops), o, now, budget, x, y);
  }
}
