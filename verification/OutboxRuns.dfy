/** Whole runs of the outbox, from empty, through any operations in any order, restarts included. */
module OutboxRuns {
  import opened Wrappers
  import opened StringOrder
  import opened OutboxModel
  import opened OutboxQueue
  import opened OutboxOrder
  import opened OutboxPass
  import opened OutboxConservation
  import opened OutboxDiscipline
  import opened OutboxReports

  datatype Op =
    | Put(message: Enqueue, at: nat)
    | Drain(oracle: Oracle, at: nat, budget: nat)
    | Forget(peer: string)
    | Restart

  function After(box: Box, op: Op): Box {
    match op
    case Put(m, at) => Enqueued(box, m, at).0
    case Drain(o, at, budget) => Drained(box, o, at, budget)
    case Forget(peer) => Forgotten(box, peer)
    case Restart => Import(Export(box)).value
  }

  function SentBy(box: Box, op: Op): seq<nat> {
    if op.Drain? then SentIds(DrainReport(box, op.oracle, op.at, op.budget).sent) else []
  }

  function DroppedBy(box: Box, op: Op): seq<nat> {
    match op
    case Put(m, at) =>
      var outcome := Enqueued(box, m, at).1;
      if outcome.Queued? && outcome.replaced.Some? then [outcome.replaced.value.id] else []
    case Drain(o, at, budget) => DroppedIds(DrainReport(box, o, at, budget).dropped)
    case Forget(peer) => DroppedIds(ForgottenReport(box, peer))
    case Restart => []
  }

  function Run(ops: seq<Op>): Box {
    if ops == [] then Box([], 0) else After(Run(ops[..|ops| - 1]), ops[|ops| - 1])
  }

  function AllSent(ops: seq<Op>): seq<nat> {
    if ops == [] then [] else
      AllSent(ops[..|ops| - 1]) + SentBy(Run(ops[..|ops| - 1]), ops[|ops| - 1])
  }

  function AllDropped(ops: seq<Op>): seq<nat> {
    if ops == [] then [] else
      AllDropped(ops[..|ops| - 1]) + DroppedBy(Run(ops[..|ops| - 1]), ops[|ops| - 1])
  }

  // ---- the shape of the queue in every reachable state ----

  lemma SameQueueOnePerKey(live: seq<Entry>, entries: seq<Entry>)
    requires SameQueue(live, entries) && OnePerKey(live)
    ensures OnePerKey(entries)
  {
    forall i, j | 0 <= i < j < |entries| ensures !SameSlot(entries[i], entries[j]) {
      assert SameMessage(entries[i], live[i]) && SameMessage(entries[j], live[j]);
      assert !SameSlot(live[i], live[j]);
    }
  }

  lemma {:induction false} SameQueueCount(live: seq<Entry>, entries: seq<Entry>, c: ChannelId)
    requires SameQueue(live, entries)
    ensures |Lost(OnChannel(c), entries)| == |Lost(OnChannel(c), live)|
  {
    if live != [] {
      var n := |live| - 1;
      SameQueueCount(live[..n], entries[..n], c);
      LostCount(OnChannel(c), live);
      LostCount(OnChannel(c), entries);
      assert SameMessage(entries[n], live[n]);
    }
  }

  lemma LostCount(r: Rule, s: seq<Entry>)
    requires s != []
    ensures |Lost(r, s)| == |Lost(r, s[..|s| - 1])| + if Hits(r, s[|s| - 1]) then 1 else 0
  {
  }

  lemma SendingInv(box: Box, o: Oracle, now: nat, budget: nat)
    requires Inv(box)
    ensures Inv(Box(Sending(box, o, now, budget).entries, box.nextId))
  {
    var live := Kept(ExpiredAt(now), box.entries);
    KeptInv(ExpiredAt(now), box);
    SendingAccount(0, box, o, now, budget);
    var entries := Sending(box, o, now, budget).entries;
    SameQueueStrict(live, entries, box.nextId);
    SameQueueOnePerKey(live, entries);
    forall c ensures |Lost(OnChannel(c), entries)| <= MAX_QUEUED_PER_CHANNEL {
      SameQueueCount(live, entries, c);
      assert |Lost(OnChannel(c), live)| <= MAX_QUEUED_PER_CHANNEL;
    }
  }

  lemma {:induction false} PurgeAllInv(p: Pass, dead: seq<ChannelId>, nextId: nat)
    requires Inv(Box(p.entries, nextId))
    ensures Inv(Box(PurgeAll(p, dead).entries, nextId))
  {
    if dead != [] {
      var q := PurgeAll(p, dead[..|dead| - 1]);
      PurgeAllInv(p, dead[..|dead| - 1], nextId);
      KeptInv(Backlog(dead[|dead| - 1], q.droppedIds), Box(q.entries, nextId));
    }
  }

  lemma DrainKeepsInv(box: Box, o: Oracle, now: nat, budget: nat)
    requires Inv(box)
    ensures Inv(Drained(box, o, now, budget))
  {
    var p := Sending(box, o, now, budget);
    SendingInv(box, o, now, budget);
    PurgeAllInv(p, SortedKeys(DeadChannels(p.failed)), box.nextId);
    var q := Purged(box, o, now, budget);
    KeptInv(WithId(q.sentIds + q.droppedIds), Box(q.entries, box.nextId));
  }

  /** In every reachable state ids increase strictly below the next one, no channel holds more than two
      hundred entries, and no two entries of a channel share a coalescing key. */
  lemma {:induction false} ReachableInv(ops: seq<Op>)
    ensures Inv(Run(ops))
  {
    if ops == [] {
      forall c ensures |Lost(OnChannel(c), [])| <= MAX_QUEUED_PER_CHANNEL {
      }
    } else {
      var box, op := Run(ops[..|ops| - 1]), ops[|ops| - 1];
      ReachableInv(ops[..|ops| - 1]);
      match op
      case Put(m, at) => EnqueueKeepsInv(box, m, at);
      case Drain(o, at, budget) => DrainKeepsInv(box, o, at, budget);
      case Forget(peer) => KeptInv(OfPeer(peer), box);
      case Restart =>
    }
  }

  // ---- conservation over runs ----

  ghost predicate TwiceIn(id: nat, box: Box, op: Op) {
    op.Drain? && SentThenBuried(id, Sending(box, op.oracle, op.at, op.budget))
  }

  /** How many drains of the run reported the id both sent and dropped. */
  ghost function TimesTwice(id: nat, ops: seq<Op>): nat {
    if ops == [] then 0 else
      TimesTwice(id, ops[..|ops| - 1]) + if TwiceIn(id, Run(ops[..|ops| - 1]), ops[|ops| - 1]) then 1 else 0
  }

  function Issued(id: nat, box: Box): nat {
    if id < box.nextId then 1 else 0
  }

  lemma StepConserves(id: nat, box: Box, op: Op)
    requires StrictIds(box.entries, box.nextId)
    ensures EntryTimes(id, box.entries) + Issued(id, After(box, op)) + (if TwiceIn(id, box, op) then 1 else 0)
         == EntryTimes(id, After(box, op).entries) + Issued(id, box)
            + Times(id, SentBy(box, op)) + Times(id, DroppedBy(box, op))
  {
    match op
    case Put(m, at) =>
      EnqueueConserves(id, box, m, at);
      TimesOfOne(id, DroppedBy(box, op));
    case Drain(o, at, budget) => DrainConserves(id, box, o, at, budget);
    case Forget(peer) =>
      KeptAndLost(id, OfPeer(peer), box.entries);
      DropAllIds(Lost(OfPeer(peer), box.entries), PeerForgotten);
    case Restart =>
  }

  lemma TimesOfOne(id: nat, ids: seq<nat>)
    requires |ids| <= 1
    ensures Times(id, ids) == if |ids| == 1 && ids[0] == id then 1 else 0
  {
  }

  /** Over any run, each id handed out so far is found once among the queued, the sent and the dropped,
      plus once for every drain that sent it on a channel which died later in that drain; an id not handed
      out is found nowhere. */
  lemma {:induction false} RunConserves(id: nat, ops: seq<Op>)
    ensures EntryTimes(id, Run(ops).entries) + Times(id, AllSent(ops)) + Times(id, AllDropped(ops))
         == Issued(id, Run(ops)) + TimesTwice(id, ops)
  {
    if ops != [] {
      var front, op := ops[..|ops| - 1], ops[|ops| - 1];
      RunConserves(id, front);
      ReachableInv(front);
      StepConserves(id, Run(front), op);
      TimesConcat(id, AllSent(front), SentBy(Run(front), op));
      TimesConcat(id, AllDropped(front), DroppedBy(Run(front), op));
    }
  }

  /** The `n`-th operation is a drain during which the transport declares a channel dead after accepting. */
  ghost predicate DeathAt(ops: seq<Op>, n: nat)
    requires n < |ops|
  {
    ops[n].Drain? && DiesAfterAccepting(DrainTrace(Run(ops[..n]), ops[n].oracle, ops[n].at, ops[n].budget))
  }

  ghost predicate CountedOnce(id: nat, ops: seq<Op>) {
    EntryTimes(id, Run(ops).entries) + Times(id, AllSent(ops)) + Times(id, AllDropped(ops)) == Issued(id, Run(ops))
  }

  lemma {:induction false} TwiceNeedsDeath(id: nat, ops: seq<Op>)
    ensures TimesTwice(id, ops) > 0 ==> exists n :: 0 <= n < |ops| && DeathAt(ops, n)
  {
    if ops != [] && TimesTwice(id, ops) > 0 {
      var k := |ops| - 1;
      var box := Run(ops[..k]);
      if TwiceIn(id, box, ops[k]) {
        ReachableInv(ops[..k]);
        CountedTwiceExactlyWhen(box, ops[k].oracle, ops[k].at, ops[k].budget);
        assert DeathAt(ops, k);
      } else {
        TwiceNeedsDeath(id, ops[..k]);
        var n :| 0 <= n < k && DeathAt(ops[..k], n);
        assert ops[..k][..n] == ops[..n];
        assert DeathAt(ops, n);
      }
    }
  }

  lemma {:induction false} TwiceGrows(id: nat, ops: seq<Op>, n: nat)
    requires n < |ops| && TwiceIn(id, Run(ops[..n]), ops[n])
    ensures TimesTwice(id, ops) > 0
  {
    if n < |ops| - 1 {
      assert ops[..|ops| - 1][..n] == ops[..n];
      TwiceGrows(id, ops[..|ops| - 1], n);
    }
  }

  /** Conservation. A run accounts for every id exactly once, as queued, sent or dropped, if and only if in none
      of its drains the transport accepts a send and later in that drain calls the same channel dead. */
  lemma ConservedExactlyWhen(ops: seq<Op>)
    ensures (forall id :: CountedOnce(id, ops)) <==> !exists n :: 0 <= n < |ops| && DeathAt(ops, n)
  {
    forall id ensures CountedOnce(id, ops) <==> TimesTwice(id, ops) == 0 {
      RunConserves(id, ops);
    }
    forall id ensures TimesTwice(id, ops) > 0 ==> exists n :: 0 <= n < |ops| && DeathAt(ops, n) {
      TwiceNeedsDeath(id, ops);
    }
    if n :| 0 <= n < |ops| && DeathAt(ops, n) {
      var box := Run(ops[..n]);
      ReachableInv(ops[..n]);
      CountedTwiceExactlyWhen(box, ops[n].oracle, ops[n].at, ops[n].budget);
      var id :| SentThenBuried(id, Sending(box, ops[n].oracle, ops[n].at, ops[n].budget));
      TwiceGrows(id, ops, n);
      assert !CountedOnce(id, ops);
    }
  }

  // ---- durable messages ----

  predicate ChannelDied(d: Dropped) {
    d.reason == ChannelRetired || d.reason == ChannelUnknown
  }

  /** Past the expired ones, every drop a drain reports is for a dead channel. */
  predicate DropsExplained(stale: seq<Dropped>, dropped: seq<Dropped>) {
    stale <= dropped && forall k :: |stale| <= k < |dropped| ==> ChannelDied(dropped[k])
  }

  lemma {:induction false} TurnsDrops(stale: seq<Dropped>, p: Pass, order: seq<nat>, o: Oracle, now: nat)
    requires Indices(p.entries, order) && DropsExplained(stale, p.report.dropped)
    ensures DropsExplained(stale, Turns(p, order, o, now).report.dropped)
  {
    if order != [] {
      TurnsDrops(stale, p, order[..|order| - 1], o, now);
    }
  }

  lemma {:induction false} PurgeAllDrops(stale: seq<Dropped>, p: Pass, dead: seq<ChannelId>)
    requires DropsExplained(stale, p.report.dropped)
    ensures DropsExplained(stale, PurgeAll(p, dead).report.dropped)
  {
    if dead != [] {
      PurgeAllDrops(stale, p, dead[..|dead| - 1]);
    }
  }

  lemma DrainDrops(box: Box, o: Oracle, now: nat, budget: nat)
    ensures DropsExplained(DropAll(Lost(ExpiredAt(now), box.entries), Expired),
                           DrainReport(box, o, now, budget).dropped)
  {
    var p := Start(box, now);
    TurnsDrops(p.report.dropped, p, SendOrder(p.entries, now, budget), o, now);
    var q := Sending(box, o, now, budget);
    PurgeAllDrops(p.report.dropped, q, SortedKeys(DeadChannels(q.failed)));
  }

  lemma DroppedIdAt(id: nat, dropped: seq<Dropped>) returns (k: nat)
    requires Times(id, DroppedIds(dropped)) > 0
    ensures k < |dropped| && dropped[k].id == id
  {
    TimesPositive(id, DroppedIds(dropped));
    k :| 0 <= k < |dropped| && DroppedIds(dropped)[k] == id;
  }

  lemma DurableNotStale(e: Entry, s: seq<Entry>, bound: nat, now: nat, k: nat)
    requires StrictIds(s, bound) && e in s && Durable(e) && k < |Lost(ExpiredAt(now), s)|
    ensures Lost(ExpiredAt(now), s)[k].id != e.id
  {
    var f := Lost(ExpiredAt(now), s)[k];
    assert f in s && Hits(ExpiredAt(now), f);
    var i :| 0 <= i < |s| && s[i] == e;
    var j :| 0 <= j < |s| && s[j] == f;
    assert i != j;
  }

  /** A durable message leaves in a drain only by being sent or by its channel being retired or unknown. */
  lemma DurableDrain(e: Entry, box: Box, o: Oracle, now: nat, budget: nat)
    requires StrictIds(box.entries, box.nextId) && e in box.entries && Durable(e)
    requires e.id !in Ids(Drained(box, o, now, budget).entries)
    ensures var report := DrainReport(box, o, now, budget);
            || e.id in SentIds(report.sent)
            || exists d :: d in report.dropped && d.id == e.id && ChannelDied(d)
  {
    var report := DrainReport(box, o, now, budget);
    var stale := DropAll(Lost(ExpiredAt(now), box.entries), Expired);
    DrainConserves(e.id, box, o, now, budget);
    MemberTimes(e.id, box.entries);
    TimesPositive(e.id, Ids(Drained(box, o, now, budget).entries));
    TimesPositive(e.id, SentIds(report.sent));
    if e.id !in SentIds(report.sent) {
      var k := DroppedIdAt(e.id, report.dropped);
      DrainDrops(box, o, now, budget);
      if k < |stale| {
        assert report.dropped[k] == stale[k];
        DurableNotStale(e, box.entries, box.nextId, now, k);
      }
      assert report.dropped[k] in report.dropped && ChannelDied(report.dropped[k]);
    }
  }

  lemma AppendKeeps(e: Entry, box: Box, m: Enqueue, now: nat)
    requires e in box.entries && Durable(e) && e.coalesceKey.None?
    ensures e in Enqueued(box, m, now).0.entries
  {
    var i :| 0 <= i < |box.entries| && box.entries[i] == e;
    if !Refuses(box.entries, m) {
      var out := Displaced(box.entries, m);
      if out.Some? {
        var x := out.value.0;
        assert x != i;
        var rest := WithoutIndex(box.entries, x);
        assert rest[if i < x then i else i - 1] == e;
        assert Enqueued(box, m, now).0.entries[if i < x then i else i - 1] == e;
      } else {
        assert Enqueued(box, m, now).0.entries[i] == e;
      }
    }
  }

  /** A durable message with no coalescing key leaves the queue only by being sent, by its channel dying, or
      by its peer being forgotten. */
  lemma DurableLeavesOnly(e: Entry, ops: seq<Op>, op: Op)
    requires e in Run(ops).entries && Durable(e) && e.coalesceKey.None?
    requires e.id !in Ids(After(Run(ops), op).entries)
    ensures match op
            case Put(_, _) => false
            case Restart => false
            case Forget(peer) => peer == e.peer
            case Drain(o, at, budget) =>
              var report := DrainReport(Run(ops), o, at, budget);
              || e.id in SentIds(report.sent)
              || exists d :: d in report.dropped && d.id == e.id && ChannelDied(d)
  {
    var box := Run(ops);
    ReachableInv(ops);
    match op
    case Put(m, at) =>
      AppendKeeps(e, box, m, at);
      InIds(e, After(box, op).entries);
    case Drain(o, at, budget) => DurableDrain(e, box, o, at, budget);
    case Forget(peer) =>
      if peer != e.peer {
        assert !Hits(OfPeer(peer), e);
        InIds(e, After(box, op).entries);
      }
    case Restart => InIds(e, box.entries);
  }
}
