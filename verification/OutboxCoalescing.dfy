/** What enqueueing puts into the queue, what it takes out, and what it answers: over the fields of the message and of
    the entries. */
module OutboxCoalescing {
  import opened Wrappers
  import opened OutboxModel
  import opened OutboxQueue
  import opened OutboxPass
  import opened OutboxRuns
  import opened OutboxExpiry
  import OutboxFifo

  /** The entry is the message as it was handed in, queued at that time and not tried yet. */
  predicate Holds(e: Entry, m: Enqueue, at: nat) {
    && e.channel == m.channel && e.peer == m.peer && e.plaintext == m.plaintext && e.highPriority == m.highPriority
    && e.ttl == m.ttl && e.expiresAt == m.expiresAt && e.coalesceKey == m.coalesceKey
    && e.enqueuedAt == at && e.notBefore == at && e.attempts == 0
  }

  /** The rest of the queue: all of it, or all but the one message named, in order. */
  ghost predicate LessReplaced(before: seq<Entry>, rest: seq<Entry>, replaced: Option<Dropped>) {
    match replaced
    case None => rest == before
    case Some(d) =>
      exists x :: 0 <= x < |before| && rest == before[..x] + before[x + 1..]
                  && d.id == before[x].id && d.channel == before[x].channel && d.peer == before[x].peer
  }

  /** An accepted message stands last, whole, under the id answered; before it stands what was queued, less what the answer
      says was replaced. A refusal names the channel and changes nothing. */
  lemma EnqueueEffect(box: Box, m: Enqueue, at: nat)
    ensures var (after, outcome) := Enqueued(box, m, at);
            match outcome
            case Full(c) => c == m.channel && after == box
            case Queued(id, replaced) =>
              && after.entries != [] && Holds(after.entries[|after.entries| - 1], m, at)
              && after.entries[|after.entries| - 1].id == id == box.nextId && after.nextId == id + 1
              && LessReplaced(box.entries, after.entries[..|after.entries| - 1], replaced)
  {
    if !Refuses(box.entries, m) {
      var out := Displaced(box.entries, m);
      if out.Some? {
        var x := out.value.0;
        assert WithoutIndex(box.entries, x) == box.entries[..x] + box.entries[x + 1..];
      }
    }
  }

  // ---- which message is replaced ----

  /** The message replaces this entry: they share a channel and a key. */
  predicate Twins(e: Entry, m: Enqueue) {
    m.coalesceKey.Some? && e.channel == m.channel && e.coalesceKey == m.coalesceKey
  }

  ghost predicate HasTwin(s: seq<Entry>, m: Enqueue) {
    exists e :: e in s && Twins(e, m)
  }

  /** A perishable entry of the channel. */
  predicate Perishable(e: Entry, c: ChannelId) {
    e.channel == c && e.expiresAt.Some?
  }

  ghost predicate HasPerishable(s: seq<Entry>, c: ChannelId) {
    exists e :: e in s && Perishable(e, c)
  }

  function HowMany(s: seq<Entry>, c: ChannelId): nat {
    if s == [] then 0 else HowMany(s[..|s| - 1], c) + if s[|s| - 1].channel == c then 1 else 0
  }

  lemma {:induction false} HowManyOn(s: seq<Entry>, c: ChannelId)
    ensures HowMany(s, c) == |Lost(OnChannel(c), s)|
  {
    if s != [] {
      HowManyOn(s[..|s| - 1], c);
      LostCount(OnChannel(c), s);
    }
  }

  lemma FoundTwin(s: seq<Entry>, m: Enqueue)
    requires m.coalesceKey.Some?
    ensures var i := FirstHit(SameKey(m.channel, m.coalesceKey.value), s);
            && (i.Some? <==> HasTwin(s, m)) && (i.Some? ==> Twins(s[i.value], m))
  {
    var rule := SameKey(m.channel, m.coalesceKey.value);
    var i := FirstHit(rule, s);
    if i.Some? {
      assert s[i.value] in s && Twins(s[i.value], m);
    }
    if HasTwin(s, m) {
      var e :| e in s && Twins(e, m);
      var k :| 0 <= k < |s| && s[k] == e;
      assert Hits(rule, s[k]);
    }
  }

  lemma FoundPerishable(s: seq<Entry>, c: ChannelId, bound: nat)
    requires StrictIds(s, bound)
    ensures var i := FirstHit(StaleOn(c), s);
            && (i.Some? <==> HasPerishable(s, c))
            && (i.Some? ==> Perishable(s[i.value], c) && forall f :: f in s && Perishable(f, c) ==> s[i.value].id <= f.id)
  {
    var i := FirstHit(StaleOn(c), s);
    if HasPerishable(s, c) {
      var e :| e in s && Perishable(e, c);
      var k :| 0 <= k < |s| && s[k] == e;
      assert Hits(StaleOn(c), s[k]);
    }
    if i.Some? {
      forall f | f in s && Perishable(f, c) ensures s[i.value].id <= f.id {
        var k :| 0 <= k < |s| && s[k] == f;
        assert Hits(StaleOn(c), s[k]);
      }
    }
  }

  /** The oldest perishable entry of the channel: none was queued before it. */
  predicate OldestPerishable(s: seq<Entry>, c: ChannelId, e: Entry) {
    e in s && Perishable(e, c) && forall f :: f in s && Perishable(f, c) ==> e.id <= f.id
  }

  ghost predicate Replaces(s: seq<Entry>, m: Enqueue, d: Dropped) {
    || (d.reason == Superseded
        && exists e :: e in s && Twins(e, m) && d == Dropped(e.id, e.channel, e.peer, Superseded))
    || (d.reason == Expired && !HasTwin(s, m) && HowMany(s, m.channel) == 200
        && exists e :: OldestPerishable(s, m.channel, e) && d == Dropped(e.id, e.channel, e.peer, Expired))
  }

  /** The answer, in every case: a twin is superseded; without one, two hundred on the channel cost the oldest perishable
      entry, and are a refusal if there is none; and otherwise nothing is replaced. */
  lemma AnswerExactly(box: Box, m: Enqueue, at: nat)
    requires Inv(box)
    ensures var outcome, s := Enqueued(box, m, at).1, box.entries;
            && (outcome.Full? <==> !HasTwin(s, m) && HowMany(s, m.channel) == 200 && !HasPerishable(s, m.channel))
            && (outcome.Queued? && outcome.replaced.None? <==> !HasTwin(s, m) && HowMany(s, m.channel) < 200)
            && (outcome.Queued? && outcome.replaced.Some? ==> Replaces(s, m, outcome.replaced.value))
  {
    HowManyOn(box.entries, m.channel);
    FoundPerishable(box.entries, m.channel, box.nextId);
    assert |Lost(OnChannel(m.channel), box.entries)| <= MAX_QUEUED_PER_CHANNEL;
    if m.coalesceKey.Some? {
      FoundTwin(box.entries, m);
    }
    AnswerByRule(box, m, at);
  }

  lemma AnswerByRule(box: Box, m: Enqueue, at: nat)
    requires |Lost(OnChannel(m.channel), box.entries)| == HowMany(box.entries, m.channel) <= 200
    requires var i := FirstHit(StaleOn(m.channel), box.entries);
             && (i.Some? <==> HasPerishable(box.entries, m.channel))
             && (i.Some? ==> OldestPerishable(box.entries, m.channel, box.entries[i.value]))
    requires m.coalesceKey.Some? ==>
               var i := FirstHit(SameKey(m.channel, m.coalesceKey.value), box.entries);
               (i.Some? <==> HasTwin(box.entries, m)) && (i.Some? ==> Twins(box.entries[i.value], m))
    ensures var outcome, s := Enqueued(box, m, at).1, box.entries;
            && (outcome.Full? <==> !HasTwin(s, m) && HowMany(s, m.channel) == 200 && !HasPerishable(s, m.channel))
            && (outcome.Queued? && outcome.replaced.None? <==> !HasTwin(s, m) && HowMany(s, m.channel) < 200)
            && (outcome.Queued? && outcome.replaced.Some? ==> Replaces(s, m, outcome.replaced.value))
  {
  }

  /** A twin is gone once it is replaced. */
  lemma ReplacedIsGone(box: Box, m: Enqueue, at: nat)
    requires Inv(box) && Enqueued(box, m, at).1.Queued? && Enqueued(box, m, at).1.replaced.Some?
    ensures Enqueued(box, m, at).1.replaced.value.id !in Ids(Enqueued(box, m, at).0.entries)
  {
    var x := Displaced(box.entries, m).value.0;
    var after := Enqueued(box, m, at).0.entries;
    assert after == WithoutIndex(box.entries, x) + [NewEntry(box.nextId, m, at)];
    assert forall i :: 0 <= i < |after| - 1 ==> after[i] == box.entries[if i < x then i else i + 1];
  }

  // ---- on runs: which Put an entry came from ----

  predicate Accepted(ops: seq<Op>, i: nat) {
    i < |ops| && ops[i].Put? && Enqueued(Run(ops[..i]), ops[i].message, ops[i].at).1.Queued?
  }

  /** The id answered to the message handed in at `i`. */
  function AnsweredId(ops: seq<Op>, i: nat): nat
    requires Accepted(ops, i)
  {
    Enqueued(Run(ops[..i]), ops[i].message, ops[i].at).1.id
  }

  predicate StillQueued(ops: seq<Op>, i: nat)
    requires Accepted(ops, i)
  {
    AnsweredId(ops, i) in Ids(Run(ops).entries)
  }

  /** The entry is the message handed in at `i`, but for its attempts. */
  predicate CameIn(ops: seq<Op>, i: nat, e: Entry) {
    && Accepted(ops, i) && e.id == AnsweredId(ops, i)
    && Holds(e.(attempts := 0, notBefore := ops[i].at), ops[i].message, ops[i].at)
  }

  lemma StillCame(ops: seq<Op>, op: Op, i: nat, e: Entry, f: Entry)
    requires CameIn(ops, i, f) && SameMessage(e, f)
    ensures CameIn(ops + [op], i, e)
  {
    assert (ops + [op])[..i] == ops[..i];
  }

  lemma JustCame(ops: seq<Op>, op: Op, e: Entry)
    requires op.Put? && e == NewEntry(Run(ops).nextId, op.message, op.at) && Enqueued(Run(ops), op.message, op.at).1.Queued?
    ensures CameIn(ops + [op], |ops|, e)
  {
    assert (ops + [op])[..|ops|] == ops;
  }

  /** Every entry of a reachable queue is a message that was handed in, field by field, under the id answered then. */
  lemma {:induction false} EveryEntryCameIn(ops: seq<Op>, e: Entry) returns (i: nat)
    requires e in Run(ops).entries
    ensures CameIn(ops, i, e)
  {
    var front, op := ops[..|ops| - 1], ops[|ops| - 1];
    assert ops == front + [op];
    ReachableInv(front);
    OutboxFifo.StepWasQueued(Run(front), op, e);
    if f :| f in Run(front).entries && SameMessage(e, f) {
      i := EveryEntryCameIn(front, f);
      StillCame(front, op, i, e, f);
    } else {
      i := |front|;
      IsNew(Run(front), op, e);
      JustCame(front, op, e);
    }
  }

  lemma IsNew(box: Box, op: Op, e: Entry)
    requires op.Put? && e in Enqueued(box, op.message, op.at).0.entries && e !in box.entries
    ensures Enqueued(box, op.message, op.at).1.Queued?
  {
  }

  // ---- on runs: an id is answered once ----

  lemma StepNextId(box: Box, op: Op)
    ensures After(box, op).nextId >= box.nextId
  {
  }

  lemma {:induction false} AdjacentGrow(ids: seq<nat>, i: nat, j: nat)
    requires i <= j < |ids| && forall k :: 0 <= k < |ids| - 1 ==> ids[k] <= ids[k + 1]
    ensures ids[i] <= ids[j]
  {
    if i < j {
      AdjacentGrow(ids, i, j - 1);
      assert ids[j - 1] <= ids[j - 1 + 1];
    }
  }

  lemma NextIdGrows(ops: seq<Op>, i: nat, j: nat)
    requires i <= j <= |ops|
    ensures Run(ops[..i]).nextId <= Run(ops[..j]).nextId
  {
    var ids := seq(|ops| + 1, k requires 0 <= k <= |ops| => Run(ops[..k]).nextId);
    forall k | 0 <= k < |ids| - 1 ensures ids[k] <= ids[k + 1] {
      NextIdStep(ops, k);
    }
    AdjacentGrow(ids, i, j);
  }

  lemma NextIdStep(ops: seq<Op>, j: nat)
    requires j < |ops|
    ensures Run(ops[..j]).nextId <= Run(ops[..j + 1]).nextId
  {
    assert ops[..j + 1][..j] == ops[..j];
    StepNextId(Run(ops[..j]), ops[j]);
  }

  lemma AnsweredOnce(ops: seq<Op>, i: nat, j: nat)
    requires Accepted(ops, i) && Accepted(ops, j) && i < j
    ensures AnsweredId(ops, i) < AnsweredId(ops, j)
  {
    assert ops[..i + 1][..i] == ops[..i];
    EnqueueEffect(Run(ops[..i]), ops[i].message, ops[i].at);
    EnqueueEffect(Run(ops[..j]), ops[j].message, ops[j].at);
    NextIdGrows(ops, i + 1, j);
  }

  lemma StillQueuedIs(ops: seq<Op>, i: nat) returns (e: Entry)
    requires Accepted(ops, i) && StillQueued(ops, i)
    ensures e in Run(ops).entries && CameIn(ops, i, e)
  {
    var s := Run(ops).entries;
    var k :| 0 <= k < |s| && Ids(s)[k] == AnsweredId(ops, i);
    e := s[k];
    var j := EveryEntryCameIn(ops, e);
    if i < j {
      AnsweredOnce(ops, i, j);
    } else if j < i {
      AnsweredOnce(ops, j, i);
    }
  }

  /** An earlier message with the same channel and key, still queued. */
  predicate EarlierTwin(ops: seq<Op>, i: nat, m: Enqueue) {
    && Accepted(ops, i) && StillQueued(ops, i) && m.coalesceKey.Some?
    && ops[i].message.channel == m.channel && ops[i].message.coalesceKey == m.coalesceKey
  }

  /** The queue has a twin of the message exactly if one handed in earlier is still queued. */
  lemma TwinExactlyWhen(ops: seq<Op>, m: Enqueue)
    ensures HasTwin(Run(ops).entries, m) <==> exists i :: EarlierTwin(ops, i, m)
  {
    if HasTwin(Run(ops).entries, m) {
      var e :| e in Run(ops).entries && Twins(e, m);
      var i := EveryEntryCameIn(ops, e);
      InIds(e, Run(ops).entries);
      assert EarlierTwin(ops, i, m);
    }
    if i :| EarlierTwin(ops, i, m) {
      var e := StillQueuedIs(ops, i);
      assert Twins(e, m);
    }
  }

  lemma InIds(e: Entry, s: seq<Entry>)
    requires e in s
    ensures e.id in Ids(s)
  {
    var i :| 0 <= i < |s| && s[i] == e;
    assert Ids(s)[i] == e.id;
  }

  predicate Supersedes(outcome: EnqueueOutcome) {
    outcome.Queued? && outcome.replaced.Some? && outcome.replaced.value.reason == Superseded
  }

  /** Coalescing. After any run a message supersedes exactly when one handed in earlier with the same channel and key is
      still queued. */
  lemma SupersedesExactlyWhen(ops: seq<Op>, m: Enqueue, at: nat)
    ensures Supersedes(Enqueued(Run(ops), m, at).1) <==> exists i :: EarlierTwin(ops, i, m)
  {
    ReachableInv(ops);
    AnswerExactly(Run(ops), m, at);
    TwinExactlyWhen(ops, m);
  }

  /** Then the earlier message is the one named in the answer, and is queued no longer. */
  lemma SupersededIsGone(ops: seq<Op>, m: Enqueue, at: nat, i: nat)
    requires EarlierTwin(ops, i, m)
    ensures var (after, outcome) := Enqueued(Run(ops), m, at);
            && Supersedes(outcome)
            && outcome.replaced == Some(Dropped(AnsweredId(ops, i), m.channel, ops[i].message.peer, Superseded))
            && AnsweredId(ops, i) !in Ids(after.entries)
  {
    SupersedesExactlyWhen(ops, m, at);
    ReachableInv(ops);
    AnswerExactly(Run(ops), m, at);
    var e := StillQueuedIs(ops, i);
    var d := Enqueued(Run(ops), m, at).1.replaced.value;
    var f :| f in Run(ops).entries && Twins(f, m) && d == Dropped(f.id, f.channel, f.peer, Superseded);
    OneTwin(Run(ops).entries, m, e, f);
    ReplacedIsGone(Run(ops), m, at);
  }

  lemma OneTwin(s: seq<Entry>, m: Enqueue, e: Entry, f: Entry)
    requires OnePerKey(s) && e in s && f in s && Twins(e, m) && Twins(f, m)
    ensures e == f
  {
    var i :| 0 <= i < |s| && s[i] == e;
    var j :| 0 <= j < |s| && s[j] == f;
    assert SameSlot(s[i], s[j]) && SameSlot(s[j], s[i]);
  }
}
