/** What each operation on the channel table is for: over the fields of the records it touches, and over whole operations
    run without another between. */
module ChannelEffects {
  import opened Wrappers
  import opened ChannelTable
  import opened ChannelInterleaving

  // ---- the lock regions ----

  /** A channel is either unknown, or retired, or may be used. */
  lemma LookUpEffect(table: Table, ch: ChannelId)
    ensures match Live(table, ch)
            case Ok(record) => ch in table && record == table[ch] && !record.retired
            case Err(UnknownChannel) => ch !in table
            case Err(Retired) => ch in table && table[ch].retired
            case Err(Backend) => false
  {
  }

  predicate Usable(s: System, ch: ChannelId) {
    ch in s.table && !s.table[ch].retired
  }

  /** One record is replaced, and nothing else in the table. */
  predicate OnlyRecord(s: System, q: System, ch: ChannelId, record: ChannelRecord) {
    ch in q.table && q.table[ch] == record && q.table - {ch} == s.table - {ch}
  }

  /** A channel is staged with its seed and nothing else; one that is there already stays as it is. */
  lemma DeclareEffect(pub: Seed -> Key, s: System, ch: ChannelId, seed: Seed)
    ensures var q := Next(pub, s, Declare(ch, seed));
            && q.server == s.server && q.tasks == s.tasks
            && if ch in s.table then q.table == s.table
               else && OnlyRecord(s, q, ch, q.table[ch]) && q.table[ch].recipientSeed == seed && q.table[ch].inbound.None?
                    && q.table[ch].outbound.None? && !q.table[ch].retired
  {
    assert Next(pub, s, Declare(ch, seed)).table - {ch} == s.table - {ch};
  }

  /** A channel in use is pointed at the peer's queue, its key not bound yet; no other is changed. */
  lemma AttachEffect(pub: Seed -> Key, s: System, ch: ChannelId, sid: QueueId, seed: Seed)
    ensures var q := Next(pub, s, Attach(ch, sid, seed));
            && q.server == s.server && q.tasks == s.tasks
            && if !Usable(s, ch) then q.table == s.table
               else && OnlyRecord(s, q, ch, s.table[ch].(outbound := q.table[ch].outbound)) && q.table[ch].outbound.Some?
                    && q.table[ch].outbound.value.senderId == sid && q.table[ch].outbound.value.senderSeed == seed
                    && !q.table[ch].outbound.value.bound
  {
    assert Next(pub, s, Attach(ch, sid, seed)).table - {ch} == s.table - {ch};
  }

  /** The end of an open records the queue just made if the channel is in use and has none; otherwise nothing. */
  lemma OpenCommitEffect(pub: Seed -> Key, s: System, t: nat, net: Network, made: QueueIds)
    requires t in s.tasks && s.tasks[t].OpenCommit?
    ensures var q, ch := Next(pub, s, Continue(t, net, made)), s.tasks[t].ch;
            && q.server == s.server && q.tasks == s.tasks - {t}
            && if Usable(s, ch) && s.table[ch].inbound.None?
               then OnlyRecord(s, q, ch, s.table[ch].(inbound := Some(s.tasks[t].ids)))
               else q.table == s.table
  {
    assert Next(pub, s, Continue(t, net, made)).table - {s.tasks[t].ch} == s.table - {s.tasks[t].ch};
  }

  /** The end of a rotation records seed and queue on a channel in use; otherwise nothing. */
  lemma RotateCommitEffect(pub: Seed -> Key, s: System, t: nat, net: Network, made: QueueIds)
    requires t in s.tasks && s.tasks[t].RotateCommit?
    ensures var q, ch := Next(pub, s, Continue(t, net, made)), s.tasks[t].ch;
            && q.server == s.server && q.tasks == s.tasks - {t}
            && if Usable(s, ch)
               then OnlyRecord(s, q, ch, s.table[ch].(recipientSeed := s.tasks[t].newSeed, inbound := Some(s.tasks[t].ids)))
               else q.table == s.table
  {
    assert Next(pub, s, Continue(t, net, made)).table - {s.tasks[t].ch} == s.table - {s.tasks[t].ch};
  }

  /** The end of a first send marks the peer's queue as bound if the channel still names it; otherwise nothing. */
  lemma MarkEffect(pub: Seed -> Key, s: System, t: nat, net: Network, made: QueueIds)
    requires t in s.tasks && s.tasks[t].SendMark?
    ensures var q, ch, sid := Next(pub, s, Continue(t, net, made)), s.tasks[t].ch, s.tasks[t].senderId;
            && q.server == s.server && q.tasks == s.tasks - {t}
            && if ch in s.table && s.table[ch].outbound.Some? && s.table[ch].outbound.value.senderId == sid
               then && OnlyRecord(s, q, ch, s.table[ch].(outbound := q.table[ch].outbound)) && q.table[ch].outbound.Some?
                    && q.table[ch].outbound.value == s.table[ch].outbound.value.(bound := true)
               else q.table == s.table
  {
    assert Next(pub, s, Continue(t, net, made)).table - {s.tasks[t].ch} == s.table - {s.tasks[t].ch};
  }

  /** The end of a retirement. */
  predicate RetiresNow(s: System, a: Action, ch: ChannelId) {
    a.Continue? && a.t in s.tasks && s.tasks[a.t].RetireCommit? && s.tasks[a.t].ch == ch
  }

  /** A channel in use becomes retired exactly at the end of a retirement of it. */
  lemma RetiredExactlyWhen(pub: Seed -> Key, s: System, a: Action, ch: ChannelId)
    requires Usable(s, ch)
    ensures ch in Next(pub, s, a).table
    ensures Next(pub, s, a).table[ch].retired <==> RetiresNow(s, a, ch)
  {
    StepOnChannel(pub, s, a, ch);
  }

  /** Which actions ask for the use of a channel. */
  predicate AsksFor(a: Action, ch: ChannelId) {
    match a
    case Declare(c, _) => c == ch
    case Attach(c, _, _) => c == ch
    case StartOpen(_, c) => c == ch
    case StartRotate(_, c, _) => c == ch
    case StartRetire(_, c) => c == ch
    case StartSend(_, c) => c == ch
    case _ => false
  }

  /** On a retired channel none of them does anything: no record changes and no operation is begun. */
  lemma RetiredRefuses(pub: Seed -> Key, s: System, a: Action, ch: ChannelId)
    requires ch in s.table && s.table[ch].retired && AsksFor(a, ch)
    ensures Next(pub, s, a) == s
  {
  }

  /** Nor, in any run from there, does it ever again. */
  lemma RetiredRefusesForever(pub: Seed -> Key, s: System, actions: seq<Action>, a: Action, ch: ChannelId)
    requires ch in s.table && s.table[ch].retired && AsksFor(a, ch)
    ensures Next(pub, Run(pub, s, actions), a) == Run(pub, s, actions)
  {
    RetiredForever(pub, s, actions, ch);
    RetiredRefuses(pub, Run(pub, s, actions), a, ch);
  }

  // ---- whole operations ----

  /** The operation continues, its requests answered. */
  function Answer(t: nat, made: QueueIds): Action {
    Continue(t, Answered, made)
  }

  lemma RunOne(pub: Seed -> Key, s: System, a: Action)
    ensures Run(pub, s, [a]) == Next(pub, s, a)
  {
    RunAppend(pub, s, [], a);
    assert [] + [a] == [a];
  }

  lemma RunTwo(pub: Seed -> Key, s: System, a: Action, b: Action)
    ensures Run(pub, s, [a, b]) == Next(pub, Next(pub, s, a), b)
  {
    RunOne(pub, s, a);
    RunAppend(pub, s, [a], b);
    assert [a] + [b] == [a, b];
  }

  lemma RunThree(pub: Seed -> Key, s: System, a: Action, b: Action, d: Action)
    ensures Run(pub, s, [a, b, d]) == Next(pub, Next(pub, Next(pub, s, a), b), d)
  {
    RunTwo(pub, s, a, b);
    RunAppend(pub, s, [a, b], d);
    assert [a, b] + [d] == [a, b, d];
  }

  lemma RunFour(pub: Seed -> Key, s: System, a: Action, b: Action, d: Action, e: Action)
    ensures Run(pub, s, [a, b, d, e]) == Next(pub, Next(pub, Next(pub, Next(pub, s, a), b), d), e)
  {
    RunThree(pub, s, a, b, d);
    RunAppend(pub, s, [a, b, d], e);
    assert [a, b, d] + [e] == [a, b, d, e];
  }

  /** What one task leaves behind for the next. */
  lemma Replaced(s: System, t: nat, task: Task, next: Task)
    requires t !in s.tasks
    ensures Begin(s, t, task) == Go(s, t, task)
    ensures Go(Go(s, t, task), t, next) == Go(s, t, next)
    ensures Done(Go(s, t, task), t) == s
  {
    assert s.tasks[t := task][t := next] == s.tasks[t := next];
    assert s.tasks[t := task] - {t} == s.tasks;
  }

  /** Open: a channel in use without a queue gets the one the server makes, under the key of its seed. */
  lemma OpenRun(pub: Seed -> Key, s: System, t: nat, ch: ChannelId, made: QueueIds, any: QueueIds)
    requires Usable(s, ch) && s.table[ch].inbound.None? && t !in s.tasks && FreshIds(s.server, made)
    ensures var q := Run(pub, s, [StartOpen(t, ch), Answer(t, made), Answer(t, any)]);
            && OnlyRecord(s, q, ch, s.table[ch].(inbound := Some(made))) && q.tasks == s.tasks
            && made.recipientId in q.server.recipientKey
            && q.server.recipientKey[made.recipientId] == pub(s.table[ch].recipientSeed)
            && q.server.retiredQueues == s.server.retiredQueues
  {
    var seed := s.table[ch].recipientSeed;
    RunThree(pub, s, StartOpen(t, ch), Answer(t, made), Answer(t, any));
    Replaced(s, t, OpenCreate(ch, seed), OpenCommit(ch, seed, made));
    var one := Next(pub, s, StartOpen(t, ch));
    assert one == Go(s, t, OpenCreate(ch, seed));
    var two := Next(pub, one, Answer(t, made));
    assert two == Go(s.(server := Created(s.server, pub(seed), made)), t, OpenCommit(ch, seed, made));
    OpenCommitEffect(pub, two, t, Answered, any);
    assert s.tasks[t := OpenCommit(ch, seed, made)] - {t} == s.tasks;
  }

  /** The queue on record is one the server lets this device retire, or has retired already. */
  lemma MayRetire(pub: Seed -> Key, s: System, ch: ChannelId)
    requires InboundSound(pub, s) && ch in s.table && s.table[ch].inbound.Some?
    ensures !RetireAnswer(s.server, s.table[ch].inbound.value.recipientId, pub(s.table[ch].recipientSeed)).Unauthorized?
    ensures s.table[ch].inbound.value.recipientId
            in RetireEffect(s.server, s.table[ch].inbound.value.recipientId, pub(s.table[ch].recipientSeed)).retiredQueues
  {
    assert MadeUnder(pub, s.server, s.table[ch].inbound.value, s.table[ch].recipientSeed);
  }

  /** The end of a retirement retires a channel that is known, and changes nothing else of it. */
  lemma RetireCommitEffect(pub: Seed -> Key, s: System, t: nat, net: Network, made: QueueIds)
    requires t in s.tasks && s.tasks[t].RetireCommit?
    ensures var q, ch := Next(pub, s, Continue(t, net, made)), s.tasks[t].ch;
            && q.server == s.server && q.tasks == s.tasks - {t}
            && if ch in s.table then OnlyRecord(s, q, ch, s.table[ch].(retired := true)) else q.table == s.table
  {
    assert Next(pub, s, Continue(t, net, made)).table - {s.tasks[t].ch} == s.table - {s.tasks[t].ch};
  }

  /** The end of an operation under way on its own. */
  lemma LastStep(pub: Seed -> Key, s: System, t: nat, ch: ChannelId, any: QueueIds)
    requires t !in s.tasks && ch in s.table
    ensures var q := Next(pub, Go(s, t, RetireCommit(ch)), Answer(t, any));
            OnlyRecord(s, q, ch, s.table[ch].(retired := true)) && q.tasks == s.tasks && q.server == s.server
  {
    RetireCommitEffect(pub, Go(s, t, RetireCommit(ch)), t, Answered, any);
    assert s.tasks[t := RetireCommit(ch)] - {t} == s.tasks;
  }

  /** Reading the seed the queue was made under. */
  lemma KeyStep(pub: Seed -> Key, s: System, t: nat, task: Task, any: QueueIds)
    requires t !in s.tasks && (task.RetireKey? || task.RotateKey?) && task.ch in s.table
    ensures Next(pub, Go(s, t, task), Answer(t, any))
         == Go(s, t, if task.RetireKey? then RetireRequest(task.ch, task.previous, s.table[task.ch].recipientSeed)
                     else RotateRetire(task.ch, task.newSeed, task.previous, s.table[task.ch].recipientSeed))
  {
    var next := if task.RetireKey? then RetireRequest(task.ch, task.previous, s.table[task.ch].recipientSeed)
                else RotateRetire(task.ch, task.newSeed, task.previous, s.table[task.ch].recipientSeed);
    Replaced(s, t, task, next);
  }

  /** Having the queue retired. */
  lemma RequestStep(pub: Seed -> Key, s: System, t: nat, task: Task, any: QueueIds)
    requires t !in s.tasks && (task.RetireRequest? || task.RotateRetire?)
    requires !RetireAnswer(s.server, task.previous.recipientId, pub(task.seed)).Unauthorized?
    ensures Next(pub, Go(s, t, task), Answer(t, any))
         == Go(s.(server := RetireEffect(s.server, task.previous.recipientId, pub(task.seed))), t,
               if task.RetireRequest? then RetireCommit(task.ch) else RotateCreate(task.ch, task.newSeed))
  {
    var next := if task.RetireRequest? then RetireCommit(task.ch) else RotateCreate(task.ch, task.newSeed);
    Replaced(s, t, task, next);
  }

  /** Retire: a channel in use ends retired, its queue retired at the server, and nothing else in the table changes. */
  lemma RetireRun(pub: Seed -> Key, s: System, t: nat, ch: ChannelId, any: QueueIds)
    requires InboundSound(pub, s) && Usable(s, ch) && s.table[ch].inbound.Some? && t !in s.tasks
    ensures var q := Run(pub, s, [StartRetire(t, ch), Answer(t, any), Answer(t, any), Answer(t, any)]);
            && OnlyRecord(s, q, ch, s.table[ch].(retired := true)) && q.tasks == s.tasks
            && s.table[ch].inbound.value.recipientId in q.server.retiredQueues
  {
    var previous, seed := s.table[ch].inbound.value, s.table[ch].recipientSeed;
    RunFour(pub, s, StartRetire(t, ch), Answer(t, any), Answer(t, any), Answer(t, any));
    assert Next(pub, s, StartRetire(t, ch)) == Go(s, t, RetireKey(ch, previous));
    KeyStep(pub, s, t, RetireKey(ch, previous), any);
    MayRetire(pub, s, ch);
    RequestStep(pub, s, t, RetireRequest(ch, previous, seed), any);
    LastStep(pub, s.(server := RetireEffect(s.server, previous.recipientId, pub(seed))), t, ch, any);
  }

  /** So does one without a queue, and the server is not asked. */
  lemma RetireRunWithoutQueue(pub: Seed -> Key, s: System, t: nat, ch: ChannelId, any: QueueIds)
    requires Usable(s, ch) && s.table[ch].inbound.None? && t !in s.tasks
    ensures var q := Run(pub, s, [StartRetire(t, ch), Answer(t, any)]);
            OnlyRecord(s, q, ch, s.table[ch].(retired := true)) && q.tasks == s.tasks && q.server == s.server
  {
    RunTwo(pub, s, StartRetire(t, ch), Answer(t, any));
    assert Next(pub, s, StartRetire(t, ch)) == Go(s, t, RetireCommit(ch));
    LastStep(pub, s, t, ch, any);
  }

  lemma RunFive(pub: Seed -> Key, s: System, a: Action, b: Action, d: Action, e: Action, f: Action)
    ensures Run(pub, s, [a, b, d, e, f]) == Next(pub, Next(pub, Next(pub, Next(pub, Next(pub, s, a), b), d), e), f)
  {
    RunFour(pub, s, a, b, d, e);
    RunAppend(pub, s, [a, b, d, e], f);
    assert [a, b, d, e] + [f] == [a, b, d, e, f];
  }

  /** Making the new queue and recording it with its seed. */
  lemma RotateEnds(pub: Seed -> Key, s: System, t: nat, ch: ChannelId, seed: Seed, made: QueueIds, any: QueueIds)
    requires Usable(s, ch) && t !in s.tasks && FreshIds(s.server, made)
    ensures var q := Next(pub, Next(pub, Go(s, t, RotateCreate(ch, seed)), Answer(t, made)), Answer(t, any));
            && OnlyRecord(s, q, ch, s.table[ch].(recipientSeed := seed, inbound := Some(made))) && q.tasks == s.tasks
            && q.server == Created(s.server, pub(seed), made)
  {
    var created := s.(server := Created(s.server, pub(seed), made));
    Replaced(s, t, RotateCreate(ch, seed), RotateCommit(ch, seed, made));
    assert Next(pub, Go(s, t, RotateCreate(ch, seed)), Answer(t, made)) == Go(created, t, RotateCommit(ch, seed, made));
    RotateCommitEffect(pub, Go(created, t, RotateCommit(ch, seed, made)), t, Answered, any);
    assert s.tasks[t := RotateCommit(ch, seed, made)] - {t} == s.tasks;
  }

  /** Rotate: a channel in use ends with the new seed and the queue made under its key; the old queue is retired at the
      server, and the peer's queue stays on record. */
  lemma RotateRun(pub: Seed -> Key, s: System, t: nat, ch: ChannelId, seed: Seed, made: QueueIds, any: QueueIds)
    requires InboundSound(pub, s) && Usable(s, ch) && s.table[ch].inbound.Some? && t !in s.tasks
    requires FreshIds(s.server, made)
    ensures var q := Run(pub, s, [StartRotate(t, ch, seed), Answer(t, any), Answer(t, any), Answer(t, made),
                                  Answer(t, any)]);
            && OnlyRecord(s, q, ch, s.table[ch].(recipientSeed := seed, inbound := Some(made))) && q.tasks == s.tasks
            && s.table[ch].inbound.value.recipientId in q.server.retiredQueues
            && made.recipientId in q.server.recipientKey && q.server.recipientKey[made.recipientId] == pub(seed)
  {
    var previous, own := s.table[ch].inbound.value, s.table[ch].recipientSeed;
    RunFive(pub, s, StartRotate(t, ch, seed), Answer(t, any), Answer(t, any), Answer(t, made), Answer(t, any));
    assert Next(pub, s, StartRotate(t, ch, seed)) == Go(s, t, RotateKey(ch, seed, previous));
    KeyStep(pub, s, t, RotateKey(ch, seed, previous), any);
    MayRetire(pub, s, ch);
    RequestStep(pub, s, t, RotateRetire(ch, seed, previous, own), any);
    RotateEnds(pub, s.(server := RetireEffect(s.server, previous.recipientId, pub(own))), t, ch, seed, made, any);
  }

  /** A channel without a queue is given one the same way. */
  lemma RotateRunWithoutQueue(pub: Seed -> Key, s: System, t: nat, ch: ChannelId, seed: Seed, made: QueueIds, any: QueueIds)
    requires Usable(s, ch) && s.table[ch].inbound.None? && t !in s.tasks && FreshIds(s.server, made)
    ensures var q := Run(pub, s, [StartRotate(t, ch, seed), Answer(t, made), Answer(t, any)]);
            && OnlyRecord(s, q, ch, s.table[ch].(recipientSeed := seed, inbound := Some(made))) && q.tasks == s.tasks
            && q.server == Created(s.server, pub(seed), made)
  {
    RunThree(pub, s, StartRotate(t, ch, seed), Answer(t, made), Answer(t, any));
    assert Next(pub, s, StartRotate(t, ch, seed)) == Go(s, t, RotateCreate(ch, seed));
    RotateEnds(pub, s, t, ch, seed, made, any);
  }

  /** The server takes a first send: the queue is there and not retired, and its key is free or this very one. */
  predicate MaySend(pub: Seed -> Key, s: System, out: OutboundQueue) {
    && out.senderId in s.server.senders && s.server.senders[out.senderId] !in s.server.retiredQueues
    && (out.senderId in s.server.boundKey ==> s.server.boundKey[out.senderId] == pub(out.senderSeed))
  }

  /** Send: a first send binds the key of the seed on record at the server, and the record says so. */
  lemma SendRun(pub: Seed -> Key, s: System, t: nat, ch: ChannelId, any: QueueIds)
    requires Usable(s, ch) && s.table[ch].outbound.Some? && !s.table[ch].outbound.value.bound && t !in s.tasks
    requires MaySend(pub, s, s.table[ch].outbound.value)
    ensures var q, out := Run(pub, s, [StartSend(t, ch), Answer(t, any), Answer(t, any)]), s.table[ch].outbound.value;
            && OnlyRecord(s, q, ch, s.table[ch].(outbound := Some(out.(bound := true)))) && q.tasks == s.tasks
            && BoundTo(q.server, out.senderId, pub(out.senderSeed))
  {
    var out := s.table[ch].outbound.value;
    var sent := s.(server := SendEffect(s.server, out.senderId, pub(out.senderSeed), true));
    RunThree(pub, s, StartSend(t, ch), Answer(t, any), Answer(t, any));
    Replaced(s, t, SendRequest(ch, out), SendMark(ch, out.senderId));
    assert Next(pub, s, StartSend(t, ch)) == Go(s, t, SendRequest(ch, out));
    assert Next(pub, Go(s, t, SendRequest(ch, out)), Answer(t, any)) == Go(sent, t, SendMark(ch, out.senderId));
    MarkEffect(pub, Go(sent, t, SendMark(ch, out.senderId)), t, Answered, any);
    assert s.tasks[t := SendMark(ch, out.senderId)] - {t} == s.tasks;
    SendBinds(s.server, out.senderId, pub(out.senderSeed));
  }

  /** A later send changes nothing here and nothing at the server: the key is bound, and no mark is made. */
  lemma SendAgainRun(pub: Seed -> Key, s: System, t: nat, ch: ChannelId, any: QueueIds)
    requires Usable(s, ch) && s.table[ch].outbound.Some? && s.table[ch].outbound.value.bound && t !in s.tasks
    ensures Run(pub, s, [StartSend(t, ch), Answer(t, any)]) == s
  {
    var out := s.table[ch].outbound.value;
    RunTwo(pub, s, StartSend(t, ch), Answer(t, any));
    Replaced(s, t, SendRequest(ch, out), SendRequest(ch, out));
    assert Next(pub, s, StartSend(t, ch)) == Go(s, t, SendRequest(ch, out));
  }

  predicate IsRequest(task: Task) {
    task.OpenCreate? || task.RotateRetire? || task.RotateCreate? || task.RetireRequest? || task.SendRequest?
  }

  /** A request that is lost, or whose answer is, ends its operation with the table as it was; one never delivered leaves the
      server as it was, too. */
  lemma LostRequest(pub: Seed -> Key, s: System, t: nat, net: Network, made: QueueIds)
    requires t in s.tasks && IsRequest(s.tasks[t]) && !net.Answered?
    ensures var q := Next(pub, s, Continue(t, net, made));
            q.table == s.table && q.tasks == s.tasks - {t} && (net.Undelivered? ==> q.server == s.server)
  {
  }

  /** So does a first send that the server refuses. */
  lemma RefusedSend(pub: Seed -> Key, s: System, t: nat, made: QueueIds)
    requires t in s.tasks && s.tasks[t].SendRequest? && !s.tasks[t].out.bound && !MaySend(pub, s, s.tasks[t].out)
    ensures var q := Next(pub, s, Answer(t, made));
            q.table == s.table && q.tasks == s.tasks - {t} && q.server == s.server
  {
  }
}
