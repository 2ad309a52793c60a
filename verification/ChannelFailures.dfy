/** Exactly which steps leave the channel table saying what the server does not: a queue marked bound whose seed the
    server does not hold, and a recorded queue the server has retired. */
module ChannelFailures {
  import opened Wrappers
  import opened ChannelTable
  import opened ChannelInterleaving

  // ---- the bound mark ----

  /** The record's mark, if it is set, is one the server would confirm. */
  predicate TruthfulOut(pub: Seed -> Key, server: Server, out: Option<OutboundQueue>) {
    out.Some? && out.value.bound ==> BoundTo(server, out.value.senderId, pub(out.value.senderSeed))
  }

  ghost predicate Truthful(pub: Seed -> Key, s: System) {
    forall ch :: ch in s.table ==> TruthfulOut(pub, s.server, s.table[ch].outbound)
  }

  /** The last step of a first send, while the record still names its queue, with a seed the server does not hold. */
  predicate Misleads(pub: Seed -> Key, s: System, a: Action) {
    && a.Continue? && a.t in s.tasks && s.tasks[a.t].SendMark?
    && var ch, sid := s.tasks[a.t].ch, s.tasks[a.t].senderId;
       && ch in s.table && s.table[ch].outbound.Some? && s.table[ch].outbound.value.senderId == sid
       && !BoundTo(s.server, sid, pub(s.table[ch].outbound.value.senderSeed))
  }

  /** Apart from the last step of a first send, no step sets a mark. */
  lemma OnlyMarksSet(pub: Seed -> Key, s: System, a: Action, ch: ChannelId)
    requires !(a.Continue? && a.t in s.tasks && s.tasks[a.t].SendMark?)
    requires ch in Next(pub, s, a).table
    ensures var now := Next(pub, s, a).table[ch].outbound;
            || (now.Some? ==> !now.value.bound)
            || (ch in s.table && now == s.table[ch].outbound)
  {
  }

  lemma TruthStep(pub: Seed -> Key, s: System, a: Action, ch: ChannelId)
    requires Truthful(pub, s) && !Misleads(pub, s, a) && ch in Next(pub, s, a).table
    ensures TruthfulOut(pub, Next(pub, s, a).server, Next(pub, s, a).table[ch].outbound)
  {
    ServerKeepsKeys(pub, s, a);
    if a.Continue? && a.t in s.tasks && s.tasks[a.t].SendMark? {
      assert TruthfulOut(pub, s.server, s.table[ch].outbound);
    } else {
      OnlyMarksSet(pub, s, a, ch);
    }
  }

  /** A truthful table stops being so exactly when the last step of a first send finds its queue still on record
      with a seed whose key is not the one bound. */
  lemma MisledExactlyWhen(pub: Seed -> Key, s: System, a: Action)
    requires Truthful(pub, s)
    ensures !Truthful(pub, Next(pub, s, a)) <==> Misleads(pub, s, a)
  {
    if Misleads(pub, s, a) {
      var q, ch := Next(pub, s, a), s.tasks[a.t].ch;
      assert q.server == s.server && !TruthfulOut(pub, q.server, q.table[ch].outbound);
    } else {
      forall ch | ch in Next(pub, s, a).table
        ensures TruthfulOut(pub, Next(pub, s, a).server, Next(pub, s, a).table[ch].outbound)
      {
        TruthStep(pub, s, a, ch);
      }
    }
  }

  ghost predicate TruthfulThroughout(pub: Seed -> Key, start: System, actions: seq<Action>) {
    forall n :: 0 <= n <= |actions| ==> Truthful(pub, Run(pub, start, actions[..n]))
  }

  ghost predicate NeverMisleads(pub: Seed -> Key, start: System, actions: seq<Action>) {
    forall n :: 0 <= n < |actions| ==> !Misleads(pub, Run(pub, start, actions[..n]), actions[n])
  }

  lemma RunStep(pub: Seed -> Key, start: System, actions: seq<Action>, n: nat)
    requires n < |actions|
    ensures Run(pub, start, actions[..n + 1]) == Next(pub, Run(pub, start, actions[..n]), actions[n])
  {
    assert actions[..n + 1][..n] == actions[..n];
  }

  lemma {:induction false} TruthfulUpTo(pub: Seed -> Key, start: System, actions: seq<Action>, n: nat)
    requires n <= |actions| && Truthful(pub, start) && NeverMisleads(pub, start, actions)
    ensures Truthful(pub, Run(pub, start, actions[..n]))
  {
    if n > 0 {
      TruthfulUpTo(pub, start, actions, n - 1);
      RunStep(pub, start, actions, n - 1);
      MisledExactlyWhen(pub, Run(pub, start, actions[..n - 1]), actions[n - 1]);
    }
  }

  /** In any interleaving, every mark is one the server would confirm all along exactly when no step misleads. */
  lemma TruthfulExactlyWhen(pub: Seed -> Key, start: System, actions: seq<Action>)
    requires Truthful(pub, start)
    ensures TruthfulThroughout(pub, start, actions) <==> NeverMisleads(pub, start, actions)
  {
    if NeverMisleads(pub, start, actions) {
      forall n | 0 <= n <= |actions| ensures Truthful(pub, Run(pub, start, actions[..n])) {
        TruthfulUpTo(pub, start, actions, n);
      }
    }
    if TruthfulThroughout(pub, start, actions) {
      forall n | 0 <= n < |actions| ensures !Misleads(pub, Run(pub, start, actions[..n]), actions[n]) {
        assert Truthful(pub, Run(pub, start, actions[..n])) && Truthful(pub, Run(pub, start, actions[..n + 1]));
        RunStep(pub, start, actions, n);
        MisledExactlyWhen(pub, Run(pub, start, actions[..n]), actions[n]);
      }
    }
  }

  // ---- the recorded queue ----

  /** The channel has a queue on record, and the server has not retired it. */
  predicate Drainable(s: System, ch: ChannelId) {
    ch in s.table && s.table[ch].inbound.Some? && s.table[ch].inbound.value.recipientId !in s.server.retiredQueues
  }

  /** A request to retire the queue arrives, signed with the key it was made under. */
  predicate RetiresQueue(pub: Seed -> Key, s: System, a: Action, rid: QueueId) {
    || (a.OthersRetire? && a.rid == rid)
    || (&& a.Continue? && a.t in s.tasks && !a.net.Undelivered?
        && (s.tasks[a.t].RotateRetire? || s.tasks[a.t].RetireRequest?)
        && s.tasks[a.t].previous.recipientId == rid
        && rid in s.server.recipientKey && s.server.recipientKey[rid] == pub(s.tasks[a.t].seed))
  }

  /** A rotation of the channel ends by recording a queue that is retired already. */
  predicate RecordsRetired(s: System, a: Action, ch: ChannelId) {
    && RotatesNow(s, a, ch) && ch in s.table && !s.table[ch].retired
    && s.tasks[a.t].ids.recipientId in s.server.retiredQueues
  }

  lemma QueueRetiredExactlyWhen(pub: Seed -> Key, s: System, a: Action, rid: QueueId)
    requires rid !in s.server.retiredQueues
    ensures rid in Next(pub, s, a).server.retiredQueues <==> RetiresQueue(pub, s, a, rid)
  {
    if a.Continue? && a.t in s.tasks {
      if s.tasks[a.t].RotateRetire? || s.tasks[a.t].RetireRequest? {
        RequestRetires(pub, s, a, rid);
      } else {
        OthersRetireNothing(pub, s, a);
      }
    }
  }

  lemma RequestRetires(pub: Seed -> Key, s: System, a: Action, rid: QueueId)
    requires a.Continue? && a.t in s.tasks && (s.tasks[a.t].RotateRetire? || s.tasks[a.t].RetireRequest?)
    requires rid !in s.server.retiredQueues
    ensures rid in Next(pub, s, a).server.retiredQueues <==> RetiresQueue(pub, s, a, rid)
  {
  }

  lemma OthersRetireNothing(pub: Seed -> Key, s: System, a: Action)
    requires a.Continue? && a.t in s.tasks && !s.tasks[a.t].RotateRetire? && !s.tasks[a.t].RetireRequest?
    ensures Next(pub, s, a).server.retiredQueues == s.server.retiredQueues
  {
  }

  lemma RotationRecords(pub: Seed -> Key, s: System, a: Action, ch: ChannelId)
    requires Drainable(s, ch)
    ensures ch in Next(pub, s, a).table && Next(pub, s, a).table[ch].inbound.Some?
    ensures Next(pub, s, a).table[ch].inbound ==
            if RotatesNow(s, a, ch) && !s.table[ch].retired then Some(s.tasks[a.t].ids) else s.table[ch].inbound
  {
    StepOnChannel(pub, s, a, ch);
  }

  lemma RotationLeavesServer(pub: Seed -> Key, s: System, a: Action, ch: ChannelId)
    requires RotatesNow(s, a, ch)
    ensures Next(pub, s, a).server == s.server
    ensures forall rid :: !RetiresQueue(pub, s, a, rid)
  {
  }

  /** A recorded queue that can be drained stops being so exactly when it is retired under the channel, by this
      device or by another, or a rotation records a queue retired since it was made. */
  lemma StrandedExactlyWhen(pub: Seed -> Key, s: System, a: Action, ch: ChannelId)
    requires Drainable(s, ch)
    ensures !Drainable(Next(pub, s, a), ch) <==>
              RetiresQueue(pub, s, a, s.table[ch].inbound.value.recipientId) || RecordsRetired(s, a, ch)
  {
    RotationRecords(pub, s, a, ch);
    QueueRetiredExactlyWhen(pub, s, a, s.table[ch].inbound.value.recipientId);
    if RotatesNow(s, a, ch) {
      RotationLeavesServer(pub, s, a, ch);
    }
  }

  /** Start a rotation, have the old queue retired, and lose the request for the new one. */
  function CutShort(t: nat, ch: ChannelId, seed: Seed, any: QueueIds): seq<Action> {
    [StartRotate(t, ch, seed)] + [Continue(t, Answered, any)] + [Continue(t, Answered, any)]
      + [Continue(t, Undelivered, any)]
  }

  /** The old queue is retired before the new one is made: a rotation whose second request is lost leaves the channel
      live, with its record untouched and naming a queue that is gone. */
  lemma CutShortStrands(pub: Seed -> Key, s: System, t: nat, ch: ChannelId, seed: Seed, any: QueueIds)
    requires InboundSound(pub, s) && Drainable(s, ch) && !s.table[ch].retired && t !in s.tasks
    ensures var q := Run(pub, s, CutShort(t, ch, seed, any));
            q.table == s.table && q.tasks == s.tasks && !Drainable(q, ch)
  {
    var previous, own := s.table[ch].inbound.value, s.table[ch].recipientSeed;
    var a1 := [StartRotate(t, ch, seed)];
    var a2 := a1 + [Continue(t, Answered, any)];
    var a3 := a2 + [Continue(t, Answered, any)];
    RunAppend(pub, s, [], StartRotate(t, ch, seed));
    assert [] + [StartRotate(t, ch, seed)] == a1;
    RunAppend(pub, s, a1, Continue(t, Answered, any));
    RunAppend(pub, s, a2, Continue(t, Answered, any));
    RunAppend(pub, s, a3, Continue(t, Undelivered, any));
    var s1 := Run(pub, s, a1);
    assert s1 == Go(s, t, RotateKey(ch, seed, previous));
    var s2 := Run(pub, s, a2);
    assert s2 == Go(s, t, RotateRetire(ch, seed, previous, own)) by {
      assert s1.tasks[t := RotateRetire(ch, seed, previous, own)] == s.tasks[t := RotateRetire(ch, seed, previous, own)];
    }
    assert MadeUnder(pub, s.server, previous, own);
    RetiredOnAnswer(pub, s, s2, t, ch, seed, previous, own, any);
  }

  lemma RetiredOnAnswer(
    pub: Seed -> Key, s: System, s2: System, t: nat, ch: ChannelId, seed: Seed, previous: QueueIds, own: Seed,
    any: QueueIds)
    requires s2 == Go(s, t, RotateRetire(ch, seed, previous, own)) && t !in s.tasks
    requires MadeUnder(pub, s.server, previous, own) && previous.recipientId !in s.server.retiredQueues
    ensures var s3 := Next(pub, s2, Continue(t, Answered, any));
            var s4 := Next(pub, s3, Continue(t, Undelivered, any));
            && s4.table == s.table && s4.tasks == s.tasks && previous.recipientId in s4.server.retiredQueues
  {
    var s3 := Next(pub, s2, Continue(t, Answered, any));
    assert s3.tasks[t] == RotateCreate(ch, seed);
    assert s3.tasks - {t} == s.tasks;
  }
}
