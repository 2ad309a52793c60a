/** What each step keeps of the queue's shape: ids in order, the per-channel bound, one entry per key. */
module OutboxQueue {
  import opened Wrappers
  import opened OutboxModel

  // ---- the invariant ----

  /** Ids are handed out in increasing order and never reused. */
  predicate StrictIds(s: seq<Entry>, bound: nat) {
    (forall i, j :: 0 <= i < j < |s| ==> s[i].id < s[j].id) &&
    (forall i :: 0 <= i < |s| ==> s[i].id < bound)
  }

  predicate SameSlot(a: Entry, b: Entry) {
    a.channel == b.channel && a.coalesceKey.Some? && a.coalesceKey == b.coalesceKey
  }

  predicate OnePerKey(s: seq<Entry>) {
    forall i, j :: 0 <= i < j < |s| ==> !SameSlot(s[i], s[j])
  }

  ghost predicate WithinBounds(s: seq<Entry>) {
    forall c :: |Lost(OnChannel(c), s)| <= MAX_QUEUED_PER_CHANNEL
  }

  ghost predicate Inv(box: Box) {
    StrictIds(box.entries, box.nextId) && OnePerKey(box.entries) && WithinBounds(box.entries)
  }

  // ---- filtering ----

  lemma IdsAppend(s: seq<Entry>, e: Entry)
    ensures Ids(s + [e]) == Ids(s) + [e.id]
  {
    assert (s + [e])[..|s|] == s;
  }

  /** How often an id occurs in a list. */
  function Times(id: nat, ids: seq<nat>): nat {
    if ids == [] then 0 else Times(id, ids[..|ids| - 1]) + if ids[|ids| - 1] == id then 1 else 0
  }

  lemma {:induction false} TimesConcat(id: nat, a: seq<nat>, b: seq<nat>)
    ensures Times(id, a + b) == Times(id, a) + Times(id, b)
  {
    if b == [] {
      assert a + b == a;
    } else {
      assert (a + b)[..|a + b| - 1] == a + b[..|b| - 1];
      TimesConcat(id, a, b[..|b| - 1]);
    }
  }

  lemma {:induction false} TimesPositive(id: nat, ids: seq<nat>)
    ensures Times(id, ids) > 0 <==> id in ids
  {
    if ids != [] {
      TimesPositive(id, ids[..|ids| - 1]);
      assert ids == ids[..|ids| - 1] + [ids[|ids| - 1]];
    }
  }

  function EntryTimes(id: nat, s: seq<Entry>): nat {
    Times(id, Ids(s))
  }

  lemma EntryTimesAppend(id: nat, s: seq<Entry>, e: Entry)
    ensures EntryTimes(id, s + [e]) == EntryTimes(id, s) + if e.id == id then 1 else 0
  {
    IdsAppend(s, e);
    assert (Ids(s) + [e.id])[..|s|] == Ids(s);
  }

  /** Every `retain` splits the queue: no id is lost, none is duplicated. */
  lemma {:induction false} KeptAndLost(id: nat, r: Rule, s: seq<Entry>)
    ensures EntryTimes(id, s) == EntryTimes(id, Kept(r, s)) + EntryTimes(id, Lost(r, s))
  {
    if s != [] {
      var front, e := s[..|s| - 1], s[|s| - 1];
      assert s == front + [e];
      KeptAndLost(id, r, front);
      EntryTimesAppend(id, front, e);
      if Hits(r, e) {
        EntryTimesAppend(id, Lost(r, front), e);
        assert Kept(r, s) == Kept(r, front);
      } else {
        EntryTimesAppend(id, Kept(r, front), e);
        assert Lost(r, s) == Lost(r, front);
      }
    }
  }

  /** Ids in strictly increasing order occur at most once. */
  lemma {:induction false} StrictTimes(id: nat, s: seq<Entry>, bound: nat)
    requires StrictIds(s, bound)
    ensures EntryTimes(id, s) == if id in Ids(s) then 1 else 0
  {
    if s != [] {
      var front, e := s[..|s| - 1], s[|s| - 1];
      assert s == front + [e];
      assert StrictIds(front, bound);
      StrictTimes(id, front, bound);
      EntryTimesAppend(id, front, e);
      IdsAppend(front, e);
    }
  }

  lemma {:induction false} LostConcat(r: Rule, a: seq<Entry>, b: seq<Entry>)
    ensures Lost(r, a + b) == Lost(r, a) + Lost(r, b)
  {
    if b == [] {
      assert a + b == a;
    } else {
      assert (a + b)[..|a + b| - 1] == a + b[..|b| - 1];
      LostConcat(r, a, b[..|b| - 1]);
    }
  }

  lemma {:induction false} KeptStrict(r: Rule, s: seq<Entry>, bound: nat)
    requires StrictIds(s, bound)
    ensures StrictIds(Kept(r, s), bound)
  {
    if s != [] {
      var front := s[..|s| - 1];
      KeptStrict(r, front, bound);
      forall i | 0 <= i < |Kept(r, front)| ensures Kept(r, front)[i].id < s[|s| - 1].id {
        assert Kept(r, front)[i] in front;
      }
    }
  }

  lemma {:induction false} KeptOnePerKey(r: Rule, s: seq<Entry>)
    requires OnePerKey(s)
    ensures OnePerKey(Kept(r, s))
  {
    if s != [] {
      var front := s[..|s| - 1];
      KeptOnePerKey(r, front);
      forall i | 0 <= i < |Kept(r, front)| ensures !SameSlot(Kept(r, front)[i], s[|s| - 1]) {
        assert Kept(r, front)[i] in front;
      }
    }
  }

  lemma {:induction false} KeptCount(r: Rule, s: seq<Entry>, c: ChannelId)
    ensures |Lost(OnChannel(c), Kept(r, s))| <= |Lost(OnChannel(c), s)|
  {
    if s != [] {
      var front, e := s[..|s| - 1], s[|s| - 1];
      KeptCount(r, front, c);
      LostConcat(OnChannel(c), Kept(r, front), [e]);
      assert [e][..0] == [];
      assert Lost(OnChannel(c), [e]) == if Hits(OnChannel(c), e) then [e] else [];
      assert Kept(r, front) + [] == Kept(r, front);
    }
  }

  /** Dropping entries by any rule keeps the invariant. */
  lemma KeptInv(r: Rule, box: Box)
    requires Inv(box)
    ensures Inv(Box(Kept(r, box.entries), box.nextId))
  {
    KeptStrict(r, box.entries, box.nextId);
    KeptOnePerKey(r, box.entries);
    forall c ensures |Lost(OnChannel(c), Kept(r, box.entries))| <= MAX_QUEUED_PER_CHANNEL {
      KeptCount(r, box.entries, c);
    }
  }

  // ---- enqueue ----

  lemma LostSingle(r: Rule, e: Entry)
    ensures Lost(r, [e]) == if Hits(r, e) then [e] else []
  {
    assert [e][..0] == [];
  }

  lemma CountWithout(s: seq<Entry>, x: nat, c: ChannelId)
    requires x < |s|
    ensures |Lost(OnChannel(c), s)|
         == |Lost(OnChannel(c), WithoutIndex(s, x))| + if s[x].channel == c then 1 else 0
  {
    assert s == s[..x] + [s[x]] + s[x + 1..];
    LostConcat(OnChannel(c), s[..x] + [s[x]], s[x + 1..]);
    LostConcat(OnChannel(c), s[..x], [s[x]]);
    LostConcat(OnChannel(c), s[..x], s[x + 1..]);
    LostSingle(OnChannel(c), s[x]);
  }

  lemma CountAppend(s: seq<Entry>, e: Entry, c: ChannelId)
    ensures |Lost(OnChannel(c), s + [e])| == |Lost(OnChannel(c), s)| + if e.channel == c then 1 else 0
  {
    LostConcat(OnChannel(c), s, [e]);
    LostSingle(OnChannel(c), e);
  }

  lemma WithoutKeepsShape(s: seq<Entry>, x: nat, bound: nat)
    requires x < |s| && StrictIds(s, bound) && OnePerKey(s)
    ensures StrictIds(WithoutIndex(s, x), bound) && OnePerKey(WithoutIndex(s, x))
  {
    var t := WithoutIndex(s, x);
    assert forall i :: 0 <= i < |t| ==> t[i] == s[if i < x then i else i + 1];
  }

  /** What is displaced makes room on the message's own channel, and no twin of it remains. */
  lemma RoomAfterDisplacing(box: Box, m: Enqueue)
    requires Inv(box) && !Refuses(box.entries, m)
    ensures var out := Displaced(box.entries, m);
            var rest := if out.Some? then WithoutIndex(box.entries, out.value.0) else box.entries;
            Inv(Box(rest, box.nextId)) &&
            |Lost(OnChannel(m.channel), rest)| < MAX_QUEUED_PER_CHANNEL &&
            (m.coalesceKey.Some? ==>
              forall i :: 0 <= i < |rest| ==> !Hits(SameKey(m.channel, m.coalesceKey.value), rest[i]))
  {
    var out := Displaced(box.entries, m);
    if out.Some? {
      var x := out.value.0;
      var rest := WithoutIndex(box.entries, x);
      WithoutKeepsShape(box.entries, x, box.nextId);
      forall c ensures |Lost(OnChannel(c), rest)| <= MAX_QUEUED_PER_CHANNEL {
        CountWithout(box.entries, x, c);
      }
      CountWithout(box.entries, x, m.channel);
      assert |Lost(OnChannel(m.channel), box.entries)| <= MAX_QUEUED_PER_CHANNEL;
      if m.coalesceKey.Some? {
        NoTwinLeft(box.entries, m);
      }
    }
  }

  lemma NoTwinLeft(s: seq<Entry>, m: Enqueue)
    requires OnePerKey(s) && Displaced(s, m).Some? && m.coalesceKey.Some?
    ensures var rest := WithoutIndex(s, Displaced(s, m).value.0);
            forall i :: 0 <= i < |rest| ==> !Hits(SameKey(m.channel, m.coalesceKey.value), rest[i])
  {
    var x := Displaced(s, m).value.0;
    var rest := WithoutIndex(s, x);
    var rule := SameKey(m.channel, m.coalesceKey.value);
    forall i | 0 <= i < |rest| ensures !Hits(rule, rest[i]) {
      var k := if i < x then i else i + 1;
      assert rest[i] == s[k];
      assert k < x ==> !SameSlot(s[k], s[x]);
      assert x < k ==> !SameSlot(s[x], s[k]);
    }
  }

  lemma AppendInv(box: Box, m: Enqueue, now: nat)
    requires Inv(box)
    requires |Lost(OnChannel(m.channel), box.entries)| < MAX_QUEUED_PER_CHANNEL
    requires m.coalesceKey.Some? ==> forall i :: 0 <= i < |box.entries| ==>
               !Hits(SameKey(m.channel, m.coalesceKey.value), box.entries[i])
    ensures Inv(Append(box, m, now))
  {
    var e := NewEntry(box.nextId, m, now);
    forall c ensures |Lost(OnChannel(c), box.entries + [e])| <= MAX_QUEUED_PER_CHANNEL {
      CountAppend(box.entries, e, c);
    }
    forall i | 0 <= i < |box.entries| ensures !SameSlot(box.entries[i], e) {
      if m.coalesceKey.Some? {
        assert !Hits(SameKey(m.channel, m.coalesceKey.value), box.entries[i]);
      }
    }
  }

  /** Enqueueing keeps the invariant; a refusal changes nothing. */
  lemma EnqueueKeepsInv(box: Box, m: Enqueue, now: nat)
    requires Inv(box)
    ensures Inv(Enqueued(box, m, now).0)
    ensures Enqueued(box, m, now).1.Full? ==> Enqueued(box, m, now).0 == box
  {
    if !Refuses(box.entries, m) {
      RoomAfterDisplacing(box, m);
      var out := Displaced(box.entries, m);
      AppendInv(Box(if out.Some? then WithoutIndex(box.entries, out.value.0) else box.entries, box.nextId), m, now);
    }
  }

  /** A message is refused exactly when it has no twin to replace and its channel is full of durable entries. */
  lemma RefusedExactlyWhen(box: Box, m: Enqueue, now: nat)
    requires Inv(box)
    ensures Enqueued(box, m, now).1.Full? <==>
            && |Lost(OnChannel(m.channel), box.entries)| == MAX_QUEUED_PER_CHANNEL
            && (forall i :: 0 <= i < |box.entries| && box.entries[i].channel == m.channel ==>
                  Durable(box.entries[i]) &&
                  (m.coalesceKey.Some? ==> box.entries[i].coalesceKey != m.coalesceKey))
  {
    assert |Lost(OnChannel(m.channel), box.entries)| <= MAX_QUEUED_PER_CHANNEL;
    var twin := if m.coalesceKey.Some? then FirstHit(SameKey(m.channel, m.coalesceKey.value), box.entries) else None;
    var stale := FirstHit(StaleOn(m.channel), box.entries);
    if Enqueued(box, m, now).1.Full? {
      assert twin.None? && stale.None?;
      forall i | 0 <= i < |box.entries| && box.entries[i].channel == m.channel
        ensures Durable(box.entries[i])
        ensures m.coalesceKey.Some? ==> box.entries[i].coalesceKey != m.coalesceKey
      {
        assert !Hits(StaleOn(m.channel), box.entries[i]);
        assert m.coalesceKey.Some? ==> !Hits(SameKey(m.channel, m.coalesceKey.value), box.entries[i]);
      }
    }
  }

  lemma TimesWithout(id: nat, s: seq<Entry>, x: nat)
    requires x < |s|
    ensures EntryTimes(id, s) == EntryTimes(id, WithoutIndex(s, x)) + if s[x].id == id then 1 else 0
  {
    var ids := Ids(s);
    TimesConcat(id, ids[..x], ids[x + 1..]);
    TimesConcat(id, ids[..x + 1], ids[x + 1..]);
    assert ids == ids[..x + 1] + ids[x + 1..] && ids[..x + 1][..x] == ids[..x];
    assert Ids(WithoutIndex(s, x)) == ids[..x] + ids[x + 1..];
  }

  /** The ids before, with the new one, are the ids after, with the displaced one. */
  lemma EnqueueConserves(id: nat, box: Box, m: Enqueue, now: nat)
    ensures var (after, outcome) := Enqueued(box, m, now);
            match outcome
            case Full(_) => after == box
            case Queued(newId, replaced) =>
              newId == box.nextId && after.nextId == box.nextId + 1 &&
              EntryTimes(id, box.entries) + (if id == newId then 1 else 0)
                == EntryTimes(id, after.entries) + if replaced.Some? && replaced.value.id == id then 1 else 0
  {
    if !Refuses(box.entries, m) {
      var out := Displaced(box.entries, m);
      var e := NewEntry(box.nextId, m, now);
      if out.Some? {
        TimesWithout(id, box.entries, out.value.0);
        EntryTimesAppend(id, WithoutIndex(box.entries, out.value.0), e);
      } else {
        EntryTimesAppend(id, box.entries, e);
      }
    }
  }
}
