/** Runs from an empty outbox on which the exceptions occur. */
module OutboxWitness {
  import opened Wrappers
  import opened StringOrder
  import opened OutboxModel
  import opened OutboxQueue
  import opened OutboxOrder
  import opened OutboxPass
  import opened OutboxConservation
  import opened OutboxDiscipline
  import opened OutboxReports
  import opened OutboxRuns
  import opened OutboxAccepting

  /** A durable message without a key. */
  function Plain(): Enqueue {
    Enqueue("c", "p", "", false, None, None, None)
  }

  function PlainEntry(id: nat, at: nat): Entry {
    NewEntry(id, Plain(), at)
  }

  function TwoPuts(first: nat, second: nat): seq<Op> {
    [Put(Plain(), first), Put(Plain(), second)]
  }

  lemma PutPlain(box: Box, at: nat)
    requires |box.entries| < MAX_QUEUED_PER_CHANNEL
    ensures Enqueued(box, Plain(), at).0 == Append(box, Plain(), at)
  {
    KeptLength(OnChannel(Plain().channel), box.entries);
  }

  lemma TwoPutsRun(first: nat, second: nat)
    ensures Run(TwoPuts(first, second)) == Box([PlainEntry(0, first), PlainEntry(1, second)], 2)
  {
    var ops := TwoPuts(first, second);
    assert ops[..1][..0] == [];
    var one := Box([PlainEntry(0, first)], 1);
    PutPlain(Box([], 0), first);
    assert Append(Box([], 0), Plain(), first) == one;
    assert Run(ops[..1]) == one;
    PutPlain(one, second);
  }

  predicate TwoPlain(s: seq<Entry>, first: nat, second: nat) {
    s == [PlainEntry(0, first), PlainEntry(1, second)]
  }

  lemma TwoPlainLive(s: seq<Entry>, first: nat, second: nat, now: nat)
    requires TwoPlain(s, first, second)
    ensures Kept(ExpiredAt(now), s) == s
  {
    KeptAll(ExpiredAt(now), s);
  }

  lemma TwoPlainDue(s: seq<Entry>, first: nat, second: nat, now: nat)
    requires TwoPlain(s, first, second) && first <= now && second <= now
    ensures DueIndices(s, now) == [0, 1]
  {
    assert s[..1][..0] == [];
    assert DueIndices(s[..1], now) == [0];
  }

  lemma TwoPlainSorted(s: seq<Entry>, first: nat, second: nat, due: seq<nat>)
    requires TwoPlain(s, first, second) && due == [0, 1]
    ensures SortByKey(s, due) == if first <= second then [0, 1] else [1, 0]
  {
    assert due[..1] == [0] && [0][..0] == [];
    assert SortByKey(s, due[..1]) == [0];
    assert Before(s[0], s[1]) <==> first <= second;
    assert SortByKey(s, due) == Place(s, 1, [0]);
    assert Place(s, 1, [0][..0]) == [1];
  }

  lemma TwoPlainOrder(s: seq<Entry>, first: nat, second: nat, now: nat, budget: nat)
    requires TwoPlain(s, first, second) && first <= now && second <= now
    ensures SendOrder(s, now, budget) == (if first <= second then [0, 1] else [1, 0])[..Min(budget, 2)]
  {
    TwoPlainDue(s, first, second, now);
    TwoPlainSorted(s, first, second, DueIndices(s, now));
  }

  /** Two messages are queued on one channel, the transport accepts the first and answers the second by retiring the
      channel: one of them is reported sent and dropped, and the run's books do not balance. */
  lemma ReachableCountedTwice(now: nat, budget: nat) returns (id: nat)
    requires budget >= 2
    ensures var ops := TwoPuts(0, 0);
            var report := DrainReport(Run(ops), AcceptUntil(3), now, budget);
            && Times(id, SentIds(report.sent)) == 1 && Times(id, DroppedIds(report.dropped)) == 1
            && !CountedOnce(id, ops + [Drain(AcceptUntil(3), now, budget)])
  {
    var ops := TwoPuts(0, 0);
    TwoPutsRun(0, 0);
    ReachableInv(ops);
    id := OneIsBuried(Run(ops), AcceptUntil(3), now, budget);
    TwiceReported(id, Run(ops), AcceptUntil(3), now, budget);
    TwiceOnTheBooks(id, ops, Drain(AcceptUntil(3), now, budget));
  }

  lemma OneIsBuried(box: Box, o: Oracle, now: nat, budget: nat) returns (id: nat)
    requires TwoPlain(box.entries, 0, 0) && box.nextId == 2 && budget >= 2 && o == AcceptUntil(3)
    ensures SentThenBuried(id, Sending(box, o, now, budget))
  {
    TwoPlainLive(box.entries, 0, 0, now);
    TwoPlainOrder(box.entries, 0, 0, now, budget);
    SharedChannelDies(box, now, budget, 0, 1);
    CountedTwiceExactlyWhen(box, o, now, budget);
    id :| SentThenBuried(id, Sending(box, o, now, budget));
  }

  lemma TwiceOnTheBooks(id: nat, ops: seq<Op>, op: Op)
    requires TwiceIn(id, Run(ops), op)
    ensures !CountedOnce(id, ops + [op])
  {
    var all := ops + [op];
    assert all[..|ops|] == ops;
    TwiceGrows(id, all, |ops|);
    RunConserves(id, all);
  }

  /** The clock is set back between two messages on one channel. A drain with room for one sends the second, though both
      are due, equally urgent and accepted, and the first stays behind. */
  lemma ClockSetBackOvertakes(first: nat, second: nat, now: nat, o: Oracle, box: Box)
    requires second < first <= now && AcceptsUntil(o, 2) && box == Run(TwoPuts(first, second))
    ensures box.entries == [PlainEntry(0, first), PlainEntry(1, second)]
    ensures SentIds(DrainReport(box, o, now, 1).sent) == [1]
    ensures 0 in Ids(Drained(box, o, now, 1).entries)
  {
    TwoPutsRun(first, second);
    SecondGoesFirst(box, first, second, o, now);
  }

  lemma SecondGoesFirst(box: Box, first: nat, second: nat, o: Oracle, now: nat)
    requires TwoPlain(box.entries, first, second) && box.nextId == 2 && second < first <= now && AcceptsUntil(o, 2)
    ensures SentIds(DrainReport(box, o, now, 1).sent) == [1]
    ensures 0 in Ids(Drained(box, o, now, 1).entries)
  {
    TwoPlainLive(box.entries, first, second, now);
    TwoPlainOrder(box.entries, first, second, now, 1);
    SecondSent(box, PlainEntry(0, first), PlainEntry(1, second), o, now);
  }

  lemma NothingPurged(p: Pass)
    requires p.failed == map[]
    ensures PurgeAll(p, SortedKeys(DeadChannels(p.failed))) == p
  {
    NothingDead();
  }

  /** The pass sends what it visits and takes nothing else from the queue. */
  predicate Clean(box: Box, order: seq<nat>, p: Pass)
    requires Indices(box.entries, order)
  {
    && p.entries == box.entries && p.sentIds == Visited(box.entries, order) && p.droppedIds == []
    && SentIds(p.report.sent) == p.sentIds && p.failed == map[]
  }

  lemma SendsAll(box: Box, order: seq<nat>, o: Oracle, now: nat, budget: nat)
    requires StrictIds(box.entries, box.nextId) && Kept(ExpiredAt(now), box.entries) == box.entries
    requires Indices(box.entries, order) && SendOrder(box.entries, now, budget) == order
    requires AcceptsUntil(o, 2 * |order|)
    ensures Clean(box, order, Sending(box, o, now, budget))
  {
    AcceptedSending(box.entries, order, Start(box, now), o, now);
  }

  /** So is every pass whose posts are all accepted. */
  lemma OnlySends(box: Box, order: seq<nat>, o: Oracle, now: nat, budget: nat, p: Pass)
    requires StrictIds(box.entries, box.nextId) && Kept(ExpiredAt(now), box.entries) == box.entries
    requires Indices(box.entries, order) && SendOrder(box.entries, now, budget) == order
    requires AcceptsUntil(o, 2 * |order|) && p == Sending(box, o, now, budget)
    ensures Clean(box, order, p) && Purged(box, o, now, budget) == p
  {
    SendsAll(box, order, o, now, budget);
    NothingPurged(p);
  }

  /** What such a pass does to a queue of two of which it visits the second. */
  lemma SecondSent(box: Box, e: Entry, f: Entry, o: Oracle, now: nat)
    requires box.entries == [e, f] && StrictIds(box.entries, box.nextId)
    requires Kept(ExpiredAt(now), box.entries) == box.entries
    requires SendOrder(box.entries, now, 1) == [1] && AcceptsUntil(o, 2)
    ensures SentIds(DrainReport(box, o, now, 1).sent) == [f.id]
    ensures e.id in Ids(Drained(box, o, now, 1).entries)
  {
    OnlySends(box, [1], o, now, 1, Sending(box, o, now, 1));
    assert Visited(box.entries, [1]) == [f.id];
    assert box.entries[0] in box.entries && e.id < f.id;
    StaysAfterSweep(box, o, now, 1, e);
    InIds(e, Drained(box, o, now, 1).entries);
  }

  // ---- overtaking a message that is backed off ----

  function Unreachable(): Oracle {
    Oracle((k, peer, text) => Sealed(text), (k, c, out) => BackendError("down"))
  }

  lemma AloneIsVisited(e: Entry, now: nat)
    requires e.notBefore <= now
    ensures SendOrder([e], now, 1) == [0]
  {
    var s := [e];
    assert s[..0] == [];
    assert DueIndices(s, now) == [0] && [0][..0] == [];
    assert SortByKey(s, [0]) == [0];
  }

  lemma FailedTurn(p: Pass, e: Entry, now: nat)
    requires p.entries == [e] && p.failed == map[] && p.sentIds == [] && p.droppedIds == []
    ensures var q := Turn(p, 0, 0, Unreachable(), now);
            && q.entries == [BackedOff(e, now)] && q.sentIds == [] && q.droppedIds == []
            && q.failed == map[e.channel := DeferReason.Unreachable("down")]
  {
  }

  lemma FailedSending(e: Entry, nextId: nat, now: nat)
    requires e.notBefore <= now && Durable(e)
    ensures var p := Sending(Box([e], nextId), Unreachable(), now, 1);
            && p.entries == [BackedOff(e, now)] && p.sentIds == [] && p.droppedIds == []
            && p.failed == map[e.channel := DeferReason.Unreachable("down")]
  {
    var box, o := Box([e], nextId), Unreachable();
    KeptAll(ExpiredAt(now), [e]);
    AloneIsVisited(e, now);
    var start := Start(box, now);
    assert [0][..0] == [] && Turns(start, [0][..0], o, now) == start;
    FailedTurn(start, e, now);
    assert Sending(box, o, now, 1) == Turn(start, 0, 0, o, now);
  }

  /** A pass that sends and drops nothing, and finds no channel dead, leaves the queue as the loop does. */
  lemma NothingSwept(box: Box, o: Oracle, now: nat, budget: nat)
    requires Sending(box, o, now, budget).sentIds == [] && Sending(box, o, now, budget).droppedIds == []
    requires DeadChannels(Sending(box, o, now, budget).failed) == {}
    ensures Drained(box, o, now, budget).entries == Sending(box, o, now, budget).entries
  {
    var p := Sending(box, o, now, budget);
    NoneDead(p);
    assert p.sentIds + p.droppedIds == [];
    KeptAll(WithId([]), p.entries);
  }

  lemma NoneDead(p: Pass)
    requires DeadChannels(p.failed) == {}
    ensures PurgeAll(p, SortedKeys(DeadChannels(p.failed))) == p
  {
  }

  lemma FailedAlone(e: Entry, nextId: nat, now: nat)
    requires e.notBefore <= now && Durable(e)
    ensures Drained(Box([e], nextId), Unreachable(), now, 1) == Box([BackedOff(e, now)], nextId)
  {
    FailedSending(e, nextId, now);
    assert DeadChannels(map[e.channel := DeferReason.Unreachable("down")]) == {};
    NothingSwept(Box([e], nextId), Unreachable(), now, 1);
  }

  lemma RunAppend(ops: seq<Op>, op: Op)
    ensures Run(ops + [op]) == After(Run(ops), op)
  {
    assert (ops + [op])[..|ops|] == ops;
  }

  /** A message is queued, a drain finds the transport unreachable, and a second message is queued on the channel. */
  function FailedBetween(first: nat, second: nat): seq<Op> {
    [Put(Plain(), first)] + [Drain(Unreachable(), first, 1)] + [Put(Plain(), second)]
  }

  lemma OnePutRun(at: nat)
    ensures Run([Put(Plain(), at)]) == Box([PlainEntry(0, at)], 1)
  {
    RunAppend([], Put(Plain(), at));
    assert [] + [Put(Plain(), at)] == [Put(Plain(), at)];
    PutPlain(Box([], 0), at);
  }

  lemma FailedBetweenRun(first: nat, second: nat)
    ensures Run(FailedBetween(first, second)) == Box([BackedOff(PlainEntry(0, first), first), PlainEntry(1, second)], 2)
  {
    var put, drain := [Put(Plain(), first)], Drain(Unreachable(), first, 1);
    var one, two := Box([PlainEntry(0, first)], 1), Box([BackedOff(PlainEntry(0, first), first)], 1);
    OnePutRun(first);
    RunAppend(put, drain);
    FailedAlone(PlainEntry(0, first), 1, first);
    assert After(one, drain) == two;
    RunAppend(put + [drain], Put(Plain(), second));
    PutPlain(two, second);
  }

  lemma OnlySecondDue(s: seq<Entry>, now: nat)
    requires |s| == 2 && s[0].notBefore > now && s[1].notBefore <= now
    ensures SendOrder(s, now, 1) == [1]
  {
    assert s[..1][..0] == [];
    assert DueIndices(s[..1], now) == [];
    assert DueIndices(s, now) == [1] && [1][..0] == [];
    assert SortByKey(s, [1]) == [1];
  }

  lemma SecondGoesAlone(box: Box, e: Entry, f: Entry, o: Oracle, now: nat)
    requires box.entries == [e, f] && StrictIds(box.entries, box.nextId) && Durable(e) && Durable(f)
    requires e.notBefore > now && f.notBefore <= now && AcceptsUntil(o, 2)
    ensures SentIds(DrainReport(box, o, now, 1).sent) == [f.id]
    ensures e.id in Ids(Drained(box, o, now, 1).entries)
  {
    KeptAll(ExpiredAt(now), box.entries);
    OnlySecondDue(box.entries, now);
    SecondSent(box, e, f, o, now);
  }

  lemma FirstWait(id: nat, at: nat)
    ensures var e := BackedOff(PlainEntry(id, at), at); e.id == id && Durable(e) && e.notBefore == at + 60
  {
    assert Pow2(1) == 2 * Pow2(0);
  }

  /** The clock only goes forward, and within the minute the transport is back: the next drain sends the second message,
      and the first waits. */
  lemma BackedOffIsOvertaken(first: nat, second: nat, o: Oracle, box: Box)
    requires first <= second < first + 60 && AcceptsUntil(o, 2) && box == Run(FailedBetween(first, second))
    ensures box.entries == [BackedOff(PlainEntry(0, first), first), PlainEntry(1, second)]
    ensures SentIds(DrainReport(box, o, second, 1).sent) == [1]
    ensures 0 in Ids(Drained(box, o, second, 1).entries)
  {
    var e, f := BackedOff(PlainEntry(0, first), first), PlainEntry(1, second);
    FailedBetweenRun(first, second);
    FirstWait(0, first);
    WaitingIsOvertaken(box, e, f, o, second);
  }

  lemma WaitingIsOvertaken(box: Box, e: Entry, f: Entry, o: Oracle, now: nat)
    requires box == Box([e, f], 2) && e.id == 0 && f.id == 1 && Durable(e) && Durable(f)
    requires e.notBefore > now && f.notBefore <= now && AcceptsUntil(o, 2)
    ensures SentIds(DrainReport(box, o, now, 1).sent) == [1] && 0 in Ids(Drained(box, o, now, 1).entries)
  {
    SecondGoesAlone(box, e, f, o, now);
  }

  /** Transports that accept what a pass of one message asks of them exist. */
  lemma AcceptorExists()
    ensures AcceptsUntil(AcceptUntil(2), 2)
  {
  }

  // ---- overtaking a message that its session refuses ----

  /** The session is lost for the first call of a pass and there for the others; the transport accepts everything. */
  function RefuseFirst(): Oracle {
    Oracle((k, peer, text) => if k == 0 then SessionLostError else Sealed(text), (k, c, out) => Accepted("m"))
  }

  lemma RefusedThenSent(start: Pass, e: Entry, f: Entry, o: Oracle, now: nat) returns (s: Sent)
    requires start.entries == [e, f] && start.report == Report([], [], []) && start.sentIds == start.droppedIds == []
    requires start.failed == map[] && start.trace == [] && o == RefuseFirst()
    ensures var p := Turn(Turn(start, 0, 0, o, now), 1, 1, o, now);
            && p.entries == [BackedOff(e, now), f] && p.sentIds == [f.id] && p.droppedIds == [] && p.failed == map[]
            && p.report.sent == [s] && s.id == f.id
  {
    var q := Turn(start, 0, 0, o, now);
    assert q.entries == [BackedOff(e, now), f] && q.failed == map[] && |q.trace| == 1;
    s := Sent(f.id, f.channel, f.peer, "m", Max(now - f.enqueuedAt, 0));
  }

  lemma BothVisited(start: Pass, order: seq<nat>, o: Oracle, now: nat)
    requires |start.entries| == 2 && order == [0, 1]
    ensures Turns(start, order, o, now) == Turn(Turn(start, 0, 0, o, now), 1, 1, o, now)
  {
    TurnsStep(start, order, 0, o, now);
    TurnsStep(start, order, 1, o, now);
    assert order[..0] == [] && order[..2] == order;
  }

  /** Two messages lie due on one channel, queued in order and equally urgent. The session of the first is lost when its
      turn comes, and is there again for the second, which goes out. */
  lemma RefusedIsOvertaken(first: nat, second: nat, now: nat, box: Box)
    requires first <= second <= now && box == Run(TwoPuts(first, second))
    ensures box.entries == [PlainEntry(0, first), PlainEntry(1, second)]
    ensures SentIds(DrainReport(box, RefuseFirst(), now, 2).sent) == [1]
    ensures 0 in Ids(Drained(box, RefuseFirst(), now, 2).entries)
  {
    TwoPutsRun(first, second);
    TwoPlainLive(box.entries, first, second, now);
    TwoPlainOrder(box.entries, first, second, now, 2);
    RefusedStays(box, PlainEntry(0, first), PlainEntry(1, second), RefuseFirst(), now);
  }

  lemma RefusedStays(box: Box, e: Entry, f: Entry, o: Oracle, now: nat)
    requires box.entries == [e, f] && e.id == 0 && f.id == 1 && o == RefuseFirst()
    requires Kept(ExpiredAt(now), box.entries) == box.entries && Durable(e) && Durable(f)
    requires SendOrder(box.entries, now, 2) == [0, 1]
    ensures SentIds(DrainReport(box, o, now, 2).sent) == [1] && 0 in Ids(Drained(box, o, now, 2).entries)
  {
    var start, p := Start(box, now), Sending(box, o, now, 2);
    KeptAll(ExpiredAt(now), box.entries);
    BothVisited(start, [0, 1], o, now);
    var s := RefusedThenSent(start, e, f, o, now);
    NothingPurged(p);
    var kept := BackedOff(e, now);
    assert p.entries[0] == kept;
    StaysAfterSweep(box, o, now, 2, kept);
    InIds(kept, Drained(box, o, now, 2).entries);
    OneSentId(s);
  }

  lemma OneSentId(s: Sent)
    ensures SentIds([s]) == [s.id]
  {
    SentIdsAppend([], s);
    assert [] + [s] == [s];
  }
}
