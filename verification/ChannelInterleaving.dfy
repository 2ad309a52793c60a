/** What every interleaving of the channel table's operations keeps. */
module ChannelInterleaving {
  import opened Wrappers
  import opened ChannelTable

  // ---- the inbound half ----

  predicate MadeUnder(pub: Seed -> Key, server: Server, ids: QueueIds, seed: Seed) {
    ids.recipientId in server.recipientKey && server.recipientKey[ids.recipientId] == pub(seed)
  }

  /** While a channel has no queue, its seed is still the one an open under way has read. */
  predicate SeedStillMeant(table: Table, ch: ChannelId, seed: Seed) {
    ch in table && (table[ch].inbound.None? ==> table[ch].recipientSeed == seed)
  }

  predicate TaskSound(pub: Seed -> Key, s: System, task: Task) {
    match task
    case OpenCreate(ch, seed) => SeedStillMeant(s.table, ch, seed)
    case OpenCommit(ch, seed, ids) => SeedStillMeant(s.table, ch, seed) && MadeUnder(pub, s.server, ids, seed)
    case RotateCommit(ch, newSeed, ids) => MadeUnder(pub, s.server, ids, newSeed)
    case _ => true
  }

  /** Every recorded inbound queue was created under the public key of the seed on record beside it. */
  ghost predicate InboundSound(pub: Seed -> Key, s: System) {
    && (forall ch :: ch in s.table && s.table[ch].inbound.Some? ==>
          MadeUnder(pub, s.server, s.table[ch].inbound.value, s.table[ch].recipientSeed))
    && (forall t :: t in s.tasks ==> TaskSound(pub, s, s.tasks[t]))
  }

  /** Recipient keys and bound sender keys are never replaced. */
  ghost predicate KeysKept(a: Server, b: Server) {
    && (forall q :: q in a.recipientKey ==> q in b.recipientKey && b.recipientKey[q] == a.recipientKey[q])
    && (forall q :: q in a.boundKey ==> q in b.boundKey && b.boundKey[q] == a.boundKey[q])
  }

  lemma CreateKeepsKeys(s: System, t: nat, key: Key, net: Network, ids: QueueIds, next: Task)
    ensures KeysKept(s.server, CreateStep(s, t, key, net, ids, next).server)
  {
  }

  lemma SendKeepsKeys(s: Server, sid: QueueId, key: Key, bind: bool)
    ensures KeysKept(s, SendEffect(s, sid, key, bind))
  {
  }

  lemma ProceedKeepsKeys(pub: Seed -> Key, s: System, t: nat, net: Network, made: QueueIds)
    requires t in s.tasks
    ensures KeysKept(s.server, Proceed(pub, s, t, net, made).server)
  {
    match s.tasks[t]
    case OpenCreate(ch, seed) => CreateKeepsKeys(s, t, pub(seed), net, made, OpenCommit(ch, seed, made));
    case RotateRetire(ch, newSeed, previous, seed) =>
      RetireKeepsKeys(s, t, previous.recipientId, pub(seed), net, RotateCreate(ch, newSeed));
    case RotateCreate(ch, seed) => CreateKeepsKeys(s, t, pub(seed), net, made, RotateCommit(ch, seed, made));
    case RetireRequest(ch, previous, seed) =>
      RetireKeepsKeys(s, t, previous.recipientId, pub(seed), net, RetireCommit(ch));
    case SendRequest(ch, out) => SendStepKeepsKeys(pub, s, t, ch, out, net);
    case _ =>
  }

  lemma RetireKeepsKeys(s: System, t: nat, rid: QueueId, key: Key, net: Network, next: Task)
    ensures KeysKept(s.server, RetireStep(s, t, rid, key, net, next).server)
  {
  }

  lemma SendStepKeepsKeys(pub: Seed -> Key, s: System, t: nat, ch: ChannelId, out: OutboundQueue, net: Network)
    ensures KeysKept(s.server, SendStep(pub, s, t, ch, out, net).server)
  {
    SendKeepsKeys(s.server, out.senderId, pub(out.senderSeed), !out.bound);
  }

  lemma ServerKeepsKeys(pub: Seed -> Key, s: System, a: Action)
    ensures KeysKept(s.server, Next(pub, s, a).server)
  {
    if a.Continue? && a.t in s.tasks {
      ProceedKeepsKeys(pub, s, a.t, a.net, a.made);
    }
  }

  /** What a step may do to one channel: a record never disappears; a queue, once recorded, is replaced only by
      the last step of a rotation; and a retired channel stays retired, its seed and queue frozen. */
  ghost predicate RecordStep(was: ChannelRecord, now: ChannelRecord, rotated: bool) {
    && (was.retired ==> now.retired && now.recipientSeed == was.recipientSeed && now.inbound == was.inbound)
    && (now.recipientSeed != was.recipientSeed ==> rotated && now.inbound.Some?)
    && (was.inbound.Some? ==> now.inbound.Some? && (now.inbound != was.inbound ==> rotated))
    && (was.retired && was.outbound.Some? ==>
          now.outbound.Some? && now.outbound.value == was.outbound.value.(bound := now.outbound.value.bound))
  }

  predicate RotatesNow(s: System, a: Action, ch: ChannelId) {
    a.Continue? && a.t in s.tasks && s.tasks[a.t].RotateCommit? && s.tasks[a.t].ch == ch
  }

  lemma StepOnChannel(pub: Seed -> Key, s: System, a: Action, ch: ChannelId)
    requires ch in s.table
    ensures ch in Next(pub, s, a).table
    ensures RecordStep(s.table[ch], Next(pub, s, a).table[ch], RotatesNow(s, a, ch))
  {
  }

  // ---- every interleaving keeps the inbound half sound ----

  /** A task not touched by a step stays sound through it. */
  lemma TaskCarries(pub: Seed -> Key, s: System, a: Action, task: Task)
    requires TaskSound(pub, s, task)
    ensures TaskSound(pub, Next(pub, s, a), task)
  {
    ServerKeepsKeys(pub, s, a);
    match task
    case OpenCreate(ch, _) => StepOnChannel(pub, s, a, ch);
    case OpenCommit(ch, _, _) => StepOnChannel(pub, s, a, ch);
    case _ =>
  }

  /** The task a step leaves an operation with is sound. */
  lemma NewTaskSound(pub: Seed -> Key, s: System, a: Action, t: nat)
    requires InboundSound(pub, s) && t in Next(pub, s, a).tasks
    requires t in s.tasks ==> Next(pub, s, a).tasks[t] != s.tasks[t]
    ensures TaskSound(pub, Next(pub, s, a), Next(pub, s, a).tasks[t])
  {
    if a.Continue? {
      if a.t in s.tasks {
        assert t == a.t;
        ContinuedTaskSound(pub, s, t, a.net, a.made);
      }
    } else {
      StartedTaskSound(pub, s, a, t);
    }
  }

  lemma StartedTaskSound(pub: Seed -> Key, s: System, a: Action, t: nat)
    requires !a.Continue? && t in Next(pub, s, a).tasks
    requires t in s.tasks ==> Next(pub, s, a).tasks[t] != s.tasks[t]
    ensures TaskSound(pub, Next(pub, s, a), Next(pub, s, a).tasks[t])
  {
  }

  lemma ContinuedTaskSound(pub: Seed -> Key, s: System, t: nat, net: Network, made: QueueIds)
    requires InboundSound(pub, s) && t in s.tasks && t in Proceed(pub, s, t, net, made).tasks
    ensures TaskSound(pub, Proceed(pub, s, t, net, made), Proceed(pub, s, t, net, made).tasks[t])
  {
    assert TaskSound(pub, s, s.tasks[t]);
  }

  lemma CommitSound(pub: Seed -> Key, s: System, a: Action, ch: ChannelId)
    requires InboundSound(pub, s) && a.Continue? && a.t in s.tasks && ch in s.table
    requires s.tasks[a.t].OpenCommit? || s.tasks[a.t].RotateCommit?
    ensures var q := Next(pub, s, a);
            ch in q.table && q.table[ch].inbound.Some? ==>
              MadeUnder(pub, q.server, q.table[ch].inbound.value, q.table[ch].recipientSeed)
  {
  }

  lemma RecordSound(pub: Seed -> Key, s: System, a: Action, ch: ChannelId)
    requires InboundSound(pub, s) && ch in Next(pub, s, a).table && Next(pub, s, a).table[ch].inbound.Some?
    ensures var q := Next(pub, s, a);
            MadeUnder(pub, q.server, q.table[ch].inbound.value, q.table[ch].recipientSeed)
  {
    ServerKeepsKeys(pub, s, a);
    if a.Continue? && a.t in s.tasks && ch in s.table && (s.tasks[a.t].OpenCommit? || s.tasks[a.t].RotateCommit?) {
      CommitSound(pub, s, a, ch);
    }
  }

  lemma InboundStep(pub: Seed -> Key, s: System, a: Action)
    requires InboundSound(pub, s)
    ensures InboundSound(pub, Next(pub, s, a))
  {
    var q := Next(pub, s, a);
    forall ch | ch in q.table && q.table[ch].inbound.Some?
      ensures MadeUnder(pub, q.server, q.table[ch].inbound.value, q.table[ch].recipientSeed)
    {
      RecordSound(pub, s, a, ch);
    }
    forall t | t in q.tasks ensures TaskSound(pub, q, q.tasks[t]) {
      if t in s.tasks && q.tasks[t] == s.tasks[t] {
        TaskCarries(pub, s, a, s.tasks[t]);
      } else {
        NewTaskSound(pub, s, a, t);
      }
    }
  }

  /** For any interleaving, with requests lost or failing anywhere: an inbound queue on record was created under
      the public key of the recipient seed recorded beside it, so this device holds the key to what it advertises.
      Whether the queue is still there is another matter: see `ChannelFailures`. */
  lemma {:induction false} InboundAlwaysSound(pub: Seed -> Key, actions: seq<Action>)
    ensures InboundSound(pub, Run(pub, Initial(), actions))
  {
    if actions != [] {
      InboundAlwaysSound(pub, actions[..|actions| - 1]);
      InboundStep(pub, Run(pub, Initial(), actions[..|actions| - 1]), actions[|actions| - 1]);
    }
  }

  // ---- one-way facts over whole runs ----

  /** No step of the run is the last step of a rotation of the channel. */
  ghost predicate NeverRotated(pub: Seed -> Key, start: System, actions: seq<Action>, ch: ChannelId) {
    forall n :: 0 <= n < |actions| ==> !RotatesNow(Run(pub, start, actions[..n]), actions[n], ch)
  }

  lemma NeverRotatedFront(pub: Seed -> Key, start: System, actions: seq<Action>, ch: ChannelId)
    requires actions != [] && NeverRotated(pub, start, actions, ch)
    ensures NeverRotated(pub, start, actions[..|actions| - 1], ch)
    ensures !RotatesNow(Run(pub, start, actions[..|actions| - 1]), actions[|actions| - 1], ch)
  {
    var front := actions[..|actions| - 1];
    forall n | 0 <= n < |front| ensures !RotatesNow(Run(pub, start, front[..n]), front[n], ch) {
      assert front[..n] == actions[..n];
    }
  }

  /** The first queue an open records stays the channel's queue, however many opens run beside it or after it,
      until a rotation completes. */
  lemma {:induction false} FirstOpenWins(pub: Seed -> Key, start: System, actions: seq<Action>, ch: ChannelId)
    requires ch in start.table && start.table[ch].inbound.Some? && NeverRotated(pub, start, actions, ch)
    ensures ch in Run(pub, start, actions).table
    ensures Run(pub, start, actions).table[ch].inbound == start.table[ch].inbound
  {
    if actions != [] {
      NeverRotatedFront(pub, start, actions, ch);
      FirstOpenWins(pub, start, actions[..|actions| - 1], ch);
      StepOnChannel(pub, Run(pub, start, actions[..|actions| - 1]), actions[|actions| - 1], ch);
    }
  }

  /** Retirement is one-way, and freezes the channel's seed, queue and peer queue; a send still under way may
      note its key as bound, and nothing else changes. */
  lemma {:induction false} RetiredForever(pub: Seed -> Key, start: System, actions: seq<Action>, ch: ChannelId)
    requires ch in start.table && start.table[ch].retired
    ensures ch in Run(pub, start, actions).table
    ensures RecordStep(start.table[ch], Run(pub, start, actions).table[ch], false)
    ensures Run(pub, start, actions).table[ch].retired
  {
    if actions != [] {
      RetiredForever(pub, start, actions[..|actions| - 1], ch);
      StepOnChannel(pub, Run(pub, start, actions[..|actions| - 1]), actions[|actions| - 1], ch);
    }
  }

  // ---- the outbound half ----

  predicate BoundTo(server: Server, sid: QueueId, key: Key) {
    sid in server.boundKey && server.boundKey[sid] == key
  }

  predicate OutboundOk(pub: Seed -> Key, seedFor: QueueId -> Seed, server: Server, out: OutboundQueue) {
    out.senderSeed == seedFor(out.senderId) && (out.bound ==> BoundTo(server, out.senderId, pub(out.senderSeed)))
  }

  predicate SendTaskOk(pub: Seed -> Key, seedFor: QueueId -> Seed, server: Server, task: Task) {
    match task
    case SendRequest(_, out) => OutboundOk(pub, seedFor, server, out)
    case SendMark(_, sid) => BoundTo(server, sid, pub(seedFor(sid)))
    case _ => true
  }

  /** Every peer queue is used with its own seed, and marked bound only once the server holds that seed's key. */
  ghost predicate OutboundSound(pub: Seed -> Key, seedFor: QueueId -> Seed, s: System) {
    && (forall ch :: ch in s.table && s.table[ch].outbound.Some? ==>
          OutboundOk(pub, seedFor, s.server, s.table[ch].outbound.value))
    && (forall t :: t in s.tasks ==> SendTaskOk(pub, seedFor, s.server, s.tasks[t]))
  }

  /** No sender id is ever attached with two different seeds; with fresh sender ids this always holds. */
  ghost predicate AttachesAgree(actions: seq<Action>, seedFor: QueueId -> Seed) {
    forall i :: 0 <= i < |actions| && actions[i].Attach? ==> actions[i].seed == seedFor(actions[i].senderId)
  }

  lemma SendBinds(server: Server, sid: QueueId, key: Key)
    requires SendAnswer(server, sid, key, true).Fine?
    ensures BoundTo(SendEffect(server, sid, key, true), sid, key)
  {
  }

  lemma OutboundRecord(pub: Seed -> Key, seedFor: QueueId -> Seed, s: System, a: Action, ch: ChannelId)
    requires OutboundSound(pub, seedFor, s) && (a.Attach? ==> a.seed == seedFor(a.senderId))
    requires ch in Next(pub, s, a).table && Next(pub, s, a).table[ch].outbound.Some?
    ensures OutboundOk(pub, seedFor, Next(pub, s, a).server, Next(pub, s, a).table[ch].outbound.value)
  {
    ServerKeepsKeys(pub, s, a);
    if a.Continue? {
      if a.t in s.tasks {
        ContinuedRecord(pub, seedFor, s, a.t, a.net, a.made, ch);
      }
    } else if a.Attach? && a.ch == ch {
      AttachedRecord(pub, seedFor, s, a.senderId, a.seed, ch);
    }
  }

  lemma AttachedRecord(pub: Seed -> Key, seedFor: QueueId -> Seed, s: System, sid: QueueId, seed: Seed, ch: ChannelId)
    requires OutboundSound(pub, seedFor, s) && seed == seedFor(sid)
    requires ch in s.table && Attached(s.table, ch, sid, seed)[ch].outbound.Some?
    ensures OutboundOk(pub, seedFor, s.server, Attached(s.table, ch, sid, seed)[ch].outbound.value)
  {
  }

  lemma ContinuedRecord(
    pub: Seed -> Key, seedFor: QueueId -> Seed, s: System, t: nat, net: Network, made: QueueIds, ch: ChannelId)
    requires OutboundSound(pub, seedFor, s) && t in s.tasks
    requires KeysKept(s.server, Proceed(pub, s, t, net, made).server)
    requires ch in Proceed(pub, s, t, net, made).table && Proceed(pub, s, t, net, made).table[ch].outbound.Some?
    ensures OutboundOk(pub, seedFor, Proceed(pub, s, t, net, made).server,
                       Proceed(pub, s, t, net, made).table[ch].outbound.value)
  {
    if s.tasks[t].SendMark? {
      assert SendTaskOk(pub, seedFor, s.server, s.tasks[t]);
    }
  }

  lemma OutboundTask(pub: Seed -> Key, seedFor: QueueId -> Seed, s: System, a: Action, t: nat)
    requires OutboundSound(pub, seedFor, s) && t in Next(pub, s, a).tasks
    ensures SendTaskOk(pub, seedFor, Next(pub, s, a).server, Next(pub, s, a).tasks[t])
  {
    ServerKeepsKeys(pub, s, a);
    if a.Continue? {
      if a.t in s.tasks && a.t == t {
        ContinuedOutbound(pub, seedFor, s, t, a.net, a.made);
      } else {
        assert t in s.tasks && Next(pub, s, a).tasks[t] == s.tasks[t];
      }
    } else {
      StartedOutbound(pub, seedFor, s, a, t);
    }
  }

  lemma StartedOutbound(pub: Seed -> Key, seedFor: QueueId -> Seed, s: System, a: Action, t: nat)
    requires OutboundSound(pub, seedFor, s) && !a.Continue? && t in Next(pub, s, a).tasks
    requires KeysKept(s.server, Next(pub, s, a).server)
    ensures SendTaskOk(pub, seedFor, Next(pub, s, a).server, Next(pub, s, a).tasks[t])
  {
  }

  lemma ContinuedOutbound(
    pub: Seed -> Key, seedFor: QueueId -> Seed, s: System, t: nat, net: Network, made: QueueIds)
    requires OutboundSound(pub, seedFor, s) && t in s.tasks && t in Proceed(pub, s, t, net, made).tasks
    ensures SendTaskOk(pub, seedFor, Proceed(pub, s, t, net, made).server, Proceed(pub, s, t, net, made).tasks[t])
  {
    assert SendTaskOk(pub, seedFor, s.server, s.tasks[t]);
    if s.tasks[t].SendRequest? {
      var out := s.tasks[t].out;
      if SendAnswer(s.server, out.senderId, pub(out.senderSeed), true).Fine? {
        SendBinds(s.server, out.senderId, pub(out.senderSeed));
      }
    }
  }

  /** If no sender id is attached with two seeds, a queue marked bound is one whose bound key at the server is the
      key of the seed on record, in every interleaving. */
  lemma {:induction false} BoundTellsTruth(pub: Seed -> Key, seedFor: QueueId -> Seed, actions: seq<Action>)
    requires AttachesAgree(actions, seedFor)
    ensures OutboundSound(pub, seedFor, Run(pub, Initial(), actions))
  {
    if actions != [] {
      var front, a := actions[..|actions| - 1], actions[|actions| - 1];
      assert forall i :: 0 <= i < |front| ==> front[i] == actions[i];
      BoundTellsTruth(pub, seedFor, front);
      var s := Run(pub, Initial(), front);
      var q := Next(pub, s, a);
      forall ch | ch in q.table && q.table[ch].outbound.Some?
        ensures OutboundOk(pub, seedFor, q.server, q.table[ch].outbound.value)
      {
        OutboundRecord(pub, seedFor, s, a, ch);
      }
      forall t | t in q.tasks ensures SendTaskOk(pub, seedFor, q.server, q.tasks[t]) {
        OutboundTask(pub, seedFor, s, a, t);
      }
    }
  }

  lemma RunAppend(pub: Seed -> Key, start: System, actions: seq<Action>, a: Action)
    ensures Run(pub, start, actions + [a]) == Next(pub, Run(pub, start, actions), a)
  {
    assert (actions + [a])[..|actions|] == actions;
  }

  /** Declare a channel, learn the peer's queue, start a first send and have the server bind its key. */
  function FirstSend(ch: ChannelId, own: Seed, peer: QueueIds, k: Key, seed: Seed): seq<Action> {
    [Declare(ch, own)] + [OthersCreate(peer, k)] + [Attach(ch, peer.senderId, seed)] + [StartSend(0, ch)]
      + [Continue(0, Answered, peer)]
  }

  lemma FirstSendBinds(pub: Seed -> Key, ch: ChannelId, own: Seed, peer: QueueIds, k: Key, seed: Seed)
    ensures var s := Run(pub, Initial(), FirstSend(ch, own, peer, k, seed));
            && ch in s.table
            && s.table[ch] == ChannelRecord(own, None, Some(OutboundQueue(peer.senderId, seed, false)), false)
            && s.tasks == map[0 := SendMark(ch, peer.senderId)]
            && BoundTo(s.server, peer.senderId, pub(seed))
  {
    var a1 := [Declare(ch, own)];
    var a2 := a1 + [OthersCreate(peer, k)];
    var a3 := a2 + [Attach(ch, peer.senderId, seed)];
    var a4 := a3 + [StartSend(0, ch)];
    RunAppend(pub, Initial(), [], Declare(ch, own));
    assert [] + [Declare(ch, own)] == a1;
    RunAppend(pub, Initial(), a1, OthersCreate(peer, k));
    RunAppend(pub, Initial(), a2, Attach(ch, peer.senderId, seed));
    RunAppend(pub, Initial(), a3, StartSend(0, ch));
    RunAppend(pub, Initial(), a4, Continue(0, Answered, peer));
  }

  /** Attaching one sender id again with another seed while a first send is under way leaves the channel marked
      bound with a seed the server does not hold. Exactly when that happens is set out in `ChannelFailures`. */
  lemma ReattachMisleads(
    pub: Seed -> Key, ch: ChannelId, own: Seed, peer: QueueIds, k: Key, first: Seed, second: Seed)
    requires pub(first) != pub(second)
    ensures var actions := FirstSend(ch, own, peer, k, first) + [Attach(ch, peer.senderId, second)]
                           + [Continue(0, Answered, peer)];
            var s := Run(pub, Initial(), actions);
            && ch in s.table && s.table[ch].outbound == Some(OutboundQueue(peer.senderId, second, true))
            && peer.senderId in s.server.boundKey && s.server.boundKey[peer.senderId] != pub(second)
  {
    var actions := FirstSend(ch, own, peer, k, first);
    FirstSendBinds(pub, ch, own, peer, k, first);
    RunAppend(pub, Initial(), actions, Attach(ch, peer.senderId, second));
    RunAppend(pub, Initial(), actions + [Attach(ch, peer.senderId, second)], Continue(0, Answered, peer));
  }
}
