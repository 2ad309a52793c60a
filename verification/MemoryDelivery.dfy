/** At-least-once delivery of the in-memory transport over whole runs. */
module MemoryDelivery {
  import opened Wrappers
  import opened MemoryQueue
  import opened Decimals

  // ---- what is pending ----

  lemma WithoutAppend(pending: seq<Stored>, m: Stored, id: MessageId)
    ensures Without(pending + [m], id) == Without(pending, id) + if m.id == id then [] else [m]
  {
    assert (pending + [m])[..|pending|] == pending;
  }

  lemma AckedAfterExtends(ops: seq<Op>, op: Op, i: nat)
    requires i < |ops| && ops[i].Send?
    ensures (ops + [op])[i] == ops[i] && MessageAt(ops + [op], i) == MessageAt(ops, i)
    ensures AckedAfter(ops + [op], i) <==> AckedAfter(ops, i) || op == Ack(ops[i].ch, MessageAt(ops, i).id)
  {
    var more := ops + [op];
    assert more[..i] == ops[..i];
    var ack := Ack(ops[i].ch, MessageAt(ops, i).id);
    if AckedAfter(ops, i) {
      var j :| i < j < |ops| && ops[j] == ack;
      assert more[j] == ack;
    }
    if op == ack {
      assert more[|ops|] == ack;
    }
  }

  lemma {:induction false} WithoutConcat(a: seq<Stored>, b: seq<Stored>, id: MessageId)
    ensures Without(a + b, id) == Without(a, id) + Without(b, id)
  {
    if b == [] {
      assert a + b == a;
    } else {
      assert (a + b)[..|a + b| - 1] == a + b[..|b| - 1];
      WithoutConcat(a, b[..|b| - 1], id);
    }
  }

  lemma WithoutOne(m: Stored, id: MessageId)
    ensures Without([m], id) == if m.id == id then [] else [m]
  {
    WithoutAppend([], m, id);
    assert [] + [m] == [m];
  }

  lemma ContributionExtends(ops: seq<Op>, op: Op, ch: ChannelId, i: nat)
    requires i < |ops|
    ensures Contribution(ops + [op], ch, i)
         == if op.Ack? && op.ch == ch then Without(Contribution(ops, ch, i), op.id) else Contribution(ops, ch, i)
  {
    assert (ops + [op])[..i] == ops[..i] && (ops + [op])[i] == ops[i];
    if ops[i].Send? {
      AckedAfterExtends(ops, op, i);
      if op.Ack? {
        WithoutOne(MessageAt(ops, i), op.id);
      }
    }
  }

  /** One more operation acknowledges at most what it names. */
  lemma {:induction false} OutstandingExtends(ops: seq<Op>, op: Op, ch: ChannelId, n: nat)
    requires n <= |ops|
    ensures Outstanding(ops + [op], ch, n)
         == if op.Ack? && op.ch == ch then Without(Outstanding(ops, ch, n), op.id) else Outstanding(ops, ch, n)
  {
    if n > 0 {
      var before, last := Outstanding(ops, ch, n - 1), Contribution(ops, ch, n - 1);
      assert Outstanding(ops, ch, n) == before + last;
      OutstandingExtends(ops, op, ch, n - 1);
      ContributionExtends(ops, op, ch, n - 1);
      if op.Ack? {
        WithoutConcat(before, last, op.id);
      }
    }
  }

  lemma NextIdCountsSends(ops: seq<Op>)
    ensures Run(ops).nextId == Sends(ops)
  {
  }

  lemma OpensFirstAppend(ops: seq<Op>, op: Op, ch: ChannelId)
    ensures OpensFirst(ops + [op], ch) <==> OpensFirst(ops, ch) || op == Open(ch)
  {
    var more := ops + [op];
    if OpensFirst(ops, ch) {
      var i :| 0 <= i < |ops| && ops[i] == Open(ch);
      assert more[i] == Open(ch);
    }
    if op == Open(ch) {
      assert more[|ops|] == op;
    }
  }

  lemma {:induction false} KnownExactlyOpened(ops: seq<Op>, ch: ChannelId)
    ensures ch in Run(ops).channels <==> OpensFirst(ops, ch)
  {
    if ops != [] {
      var front, op := ops[..|ops| - 1], ops[|ops| - 1];
      assert ops == front + [op];
      KnownExactlyOpened(front, ch);
      OpensFirstAppend(front, op, ch);
    }
  }

  predicate IsLive(s: State, ch: ChannelId) {
    ch in s.channels && !s.channels[ch].retired
  }

  lemma OutstandingNothing(ops: seq<Op>, ch: ChannelId, n: nat)
    requires n <= |ops| && !OpensFirst(ops, ch)
    ensures Outstanding(ops, ch, n) == []
  {
    if n > 0 {
      OutstandingNothing(ops, ch, n - 1);
      assert forall i :: 0 <= i < n - 1 ==> ops[..n - 1][i] == ops[i];
    }
  }

  lemma LastSend(ops: seq<Op>, op: Op, ch: ChannelId)
    requires op.Send?
    ensures MessageAt(ops + [op], |ops|) == Stored(MessageIdOf(Sends(ops) + 1), op.ciphertext)
    ensures !AckedAfter(ops + [op], |ops|)
    ensures Outstanding(ops + [op], ch, |ops| + 1)
         == Outstanding(ops, ch, |ops|)
            + if op.ch == ch && OpensFirst(ops, ch) then [MessageAt(ops + [op], |ops|)] else []
  {
    assert (ops + [op])[..|ops|] == ops;
    OutstandingExtends(ops, op, ch, |ops|);
  }

  lemma LastOther(ops: seq<Op>, op: Op, ch: ChannelId)
    requires !op.Send?
    ensures Outstanding(ops + [op], ch, |ops| + 1)
         == if op.Ack? && op.ch == ch then Without(Outstanding(ops, ch, |ops|), op.id) else Outstanding(ops, ch, |ops|)
  {
    OutstandingExtends(ops, op, ch, |ops|);
  }

  /** What one operation makes of a channel that is live afterwards. */
  lemma PendingStep(s: State, op: Op, ch: ChannelId)
    requires IsLive(After(s, op), ch)
    ensures ch in s.channels ==> !s.channels[ch].retired
    ensures var before := if ch in s.channels then s.channels[ch].pending else [];
            After(s, op).channels[ch].pending
              == if op.Send? && op.ch == ch then before + [Stored(MessageIdOf(s.nextId + 1), op.ciphertext)]
                 else if op.Ack? && op.ch == ch then Without(before, op.id)
                 else before
  {
  }

  lemma OutstandingStep(ops: seq<Op>, op: Op, ch: ChannelId)
    requires op.Send? && op.ch == ch ==> OpensFirst(ops, ch)
    ensures var before := Outstanding(ops, ch, |ops|);
            Outstanding(ops + [op], ch, |ops| + 1)
              == if op.Send? && op.ch == ch then before + [Stored(MessageIdOf(Sends(ops) + 1), op.ciphertext)]
                 else if op.Ack? && op.ch == ch then Without(before, op.id)
                 else before
  {
    if op.Send? {
      LastSend(ops, op, ch);
    } else {
      LastOther(ops, op, ch);
    }
  }

  /** At least once. After any run, what a live channel holds is exactly what was accepted on it and not
      acknowledged since, in the order it was sent. */
  lemma {:induction false} PendingIsOutstanding(ops: seq<Op>, ch: ChannelId)
    requires IsLive(Run(ops), ch)
    ensures Run(ops).channels[ch].pending == Outstanding(ops, ch, |ops|)
  {
    var front, op := ops[..|ops| - 1], ops[|ops| - 1];
    assert ops == front + [op];
    NextIdCountsSends(front);
    KnownExactlyOpened(front, ch);
    PendingStep(Run(front), op, ch);
    OutstandingStep(front, op, ch);
    if ch in Run(front).channels {
      PendingIsOutstanding(front, ch);
    } else {
      OutstandingNothing(front, ch, |front|);
    }
  }

  // ---- ids ----

  predicate AllDistinct(p: seq<Stored>) {
    forall i, j :: 0 <= i < j < |p| ==> p[i].id != p[j].id
  }

  /** Ids on a channel are distinct, and none has a number that is still to be given out. */
  ghost predicate DistinctIds(s: State, ch: ChannelId) {
    ch in s.channels ==>
      var p := s.channels[ch].pending;
      && AllDistinct(p)
      && (forall i, k: nat :: 0 <= i < |p| && k > s.nextId ==> p[i].id != MessageIdOf(k))
  }

  lemma {:induction false} WithoutMembers(pending: seq<Stored>, id: MessageId)
    ensures forall m :: m in Without(pending, id) <==> m in pending && m.id != id
  {
    if pending != [] {
      WithoutMembers(pending[..|pending| - 1], id);
      assert pending == pending[..|pending| - 1] + [pending[|pending| - 1]];
    }
  }

  lemma {:induction false} WithoutDistinct(pending: seq<Stored>, id: MessageId)
    requires AllDistinct(pending)
    ensures AllDistinct(Without(pending, id))
  {
    if pending != [] {
      var front, last := pending[..|pending| - 1], pending[|pending| - 1];
      WithoutDistinct(front, id);
      WithoutMembers(front, id);
      var w := Without(front, id);
      forall i | 0 <= i < |w| ensures w[i].id != last.id {
        assert w[i] in front;
      }
      assert Without(pending, id) == w || Without(pending, id) == w + [last];
    }
  }

  lemma IdsInjective(a: nat, b: nat)
    ensures MessageIdOf(a) == MessageIdOf(b) <==> a == b
  {
    if MessageIdOf(a) == MessageIdOf(b) {
      assert MessageIdOf(a)[1..] == Decimal(a) && MessageIdOf(b)[1..] == Decimal(b);
      DecimalInjective(a, b);
    }
  }

  lemma SendKeepsDistinct(s: State, ch: ChannelId, other: ChannelId, text: Bytes)
    requires DistinctIds(s, ch)
    ensures DistinctIds(SentOn(s, other, text).0, ch)
  {
    var n := s.nextId + 1;
    forall k: nat ensures MessageIdOf(n) == MessageIdOf(k) <==> n == k {
      IdsInjective(n, k);
    }
  }

  lemma AckKeepsDistinct(s: State, ch: ChannelId, other: ChannelId, id: MessageId)
    requires DistinctIds(s, ch)
    ensures DistinctIds(Acked(s, other, id).0, ch)
  {
    if ch == other && ch in s.channels {
      var p := s.channels[ch].pending;
      WithoutDistinct(p, id);
      WithoutMembers(p, id);
      var w := Without(p, id);
      forall i, k: nat | 0 <= i < |w| && k > s.nextId ensures w[i].id != MessageIdOf(k) {
        assert w[i] in p;
      }
    }
  }

  /** In every reachable state the ids waiting on a channel are distinct. */
  lemma {:induction false} ReachableIdsDistinct(ops: seq<Op>, ch: ChannelId)
    ensures DistinctIds(Run(ops), ch)
  {
    if ops != [] {
      var front, op := ops[..|ops| - 1], ops[|ops| - 1];
      ReachableIdsDistinct(front, ch);
      match op
      case Open(_) =>
      case Retire(_) =>
      case Send(other, text) => SendKeepsDistinct(Run(front), ch, other, text);
      case Ack(other, id) => AckKeepsDistinct(Run(front), ch, other, id);
    }
  }

  // ---- retirement ----

  /** A retired channel stays retired and empty, and refuses everything but being retired again. */
  lemma RetiredStaysEmpty(s: State, ch: ChannelId, op: Op)
    requires ch in s.channels && s.channels[ch] == Channel([], true)
    ensures ch in After(s, op).channels && After(s, op).channels[ch] == Channel([], true)
    ensures Opened(s, ch).1 == Err(Retired(ch)) && RetiredNow(s, ch).1 == Ok(())
    ensures forall text :: SentOn(s, ch, text).1 == Err(Retired(ch))
    ensures forall id :: Acked(s, ch, id).1 == Err(Retired(ch))
    ensures forall cursor: nat :: Pulled(s, ch, cursor).0 == Err(Retired(ch))
  {
  }

  /** In every reachable state a retired channel is empty. */
  lemma {:induction false} RetiredIsEmpty(ops: seq<Op>, ch: ChannelId)
    requires ch in Run(ops).channels && Run(ops).channels[ch].retired
    ensures Run(ops).channels[ch] == Channel([], true)
  {
    var s := Run(ops[..|ops| - 1]);
    if ch in s.channels && s.channels[ch].retired {
      RetiredIsEmpty(ops[..|ops| - 1], ch);
    }
  }

  // ---- subscriptions ----

  /** Pulling until nothing is left, without acknowledging. */
  function Drained(s: State, ch: ChannelId, cursor: nat): seq<Stored>
    requires IsLive(s, ch)
    decreases |s.channels[ch].pending| - cursor
  {
    var (result, next) := Pulled(s, ch, cursor);
    if result.value.None? then [] else [result.value.value] + Drained(s, ch, next)
  }

  lemma {:induction false} DrainedIsPending(s: State, ch: ChannelId, cursor: nat)
    requires IsLive(s, ch) && cursor <= |s.channels[ch].pending|
    ensures Drained(s, ch, cursor) == s.channels[ch].pending[cursor..]
    decreases |s.channels[ch].pending| - cursor
  {
    if cursor < |s.channels[ch].pending| {
      DrainedIsPending(s, ch, cursor + 1);
    }
  }

  /** A fresh subscription pulled to its end, with no acknowledgement in between, delivers every outstanding
      message, in order: whatever an earlier subscription delivered or skipped comes again until acknowledged. */
  lemma FreshSubscriptionRedelivers(ops: seq<Op>, ch: ChannelId)
    requires IsLive(Run(ops), ch)
    ensures Drained(Run(ops), ch, 0) == Outstanding(ops, ch, |ops|)
  {
    DrainedIsPending(Run(ops), ch, 0);
    PendingIsOutstanding(ops, ch);
  }

  lemma {:induction false} WithoutAt(p: seq<Stored>, j: nat)
    requires j < |p| && AllDistinct(p)
    ensures Without(p, p[j].id) == p[..j] + p[j + 1..]
  {
    var front := p[..|p| - 1];
    if j < |p| - 1 {
      WithoutAt(front, j);
    } else {
      WithoutAbsent(front, p[j].id);
    }
  }

  lemma {:induction false} WithoutAbsent(p: seq<Stored>, id: MessageId)
    requires forall i :: 0 <= i < |p| ==> p[i].id != id
    ensures Without(p, id) == p
  {
    if p != [] {
      WithoutAbsent(p[..|p| - 1], id);
    }
  }

  /** Acknowledging during a subscription moves messages under its cursor: the next pull passes over the message
      at the cursor, though it is still pending, if and only if the one acknowledged lay before the cursor. */
  lemma AckShiftsCursor(ops: seq<Op>, ch: ChannelId, cursor: nat, j: nat)
    requires IsLive(Run(ops), ch)
    requires var p := Run(ops).channels[ch].pending; j < |p| && cursor < |p| && j != cursor
    ensures var p := Run(ops).channels[ch].pending;
            var after := Run(ops + [Ack(ch, p[j].id)]);
            && p[cursor] in after.channels[ch].pending
            && (Pulled(after, ch, cursor).0 != Ok(Some(p[cursor])) <==> j < cursor)
  {
    var p := Run(ops).channels[ch].pending;
    var op := Ack(ch, p[j].id);
    assert (ops + [op])[..|ops|] == ops;
    ReachableIdsDistinct(ops, ch);
    WithoutAt(p, j);
    var w := p[..j] + p[j + 1..];
    var after := Run(ops + [op]);
    assert after.channels[ch].pending == w;
    PassedOver(p, w, cursor, j);
  }

  lemma PassedOver(p: seq<Stored>, w: seq<Stored>, cursor: nat, j: nat)
    requires AllDistinct(p) && j < |p| && cursor < |p| && j != cursor && w == p[..j] + p[j + 1..]
    ensures p[cursor] in w
    ensures (cursor < |w| && w[cursor] == p[cursor]) <==> cursor < j
  {
    assert w[if cursor < j then cursor else cursor - 1] == p[cursor];
    if j < cursor && cursor < |w| {
      assert w[cursor] == p[cursor + 1];
    }
  }
}
