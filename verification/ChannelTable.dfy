/** The Sund transport's channel table under interleaving.

    The table's lock is held for one region at a time and released around every request to the server, so an
    operation is a chain of small steps and several operations may be under way at once. Each lock region and
    each request is one atomic step here; a request may also fail before or after taking effect. */
module ChannelTable {
  import opened Wrappers

  type ChannelId = string
  type Seed = string
  type Key = string
  type QueueId = string

  datatype QueueIds = QueueIds(recipientId: QueueId, senderId: QueueId)

  datatype OutboundQueue = OutboundQueue(senderId: QueueId, senderSeed: Seed, bound: bool)

  datatype ChannelRecord = ChannelRecord(
    recipientSeed: Seed, inbound: Option<QueueIds>, outbound: Option<OutboundQueue>, retired: bool)

  type Table = map<ChannelId, ChannelRecord>

  datatype TransportError = UnknownChannel | Retired | Backend

  // ---- the lock regions ----

  /** A record that may still be used, or why there is none. */
  function Live(table: Table, ch: ChannelId): Result<ChannelRecord, TransportError> {
    if ch !in table then Err(UnknownChannel)
    else if table[ch].retired then Err(Retired)
    else Ok(table[ch])
  }

  function Declared(table: Table, ch: ChannelId, seed: Seed): Table {
    if ch in table then table else table[ch := ChannelRecord(seed, None, None, false)]
  }

  function Attached(table: Table, ch: ChannelId, senderId: QueueId, seed: Seed): Table {
    if Live(table, ch).Err? then table
    else table[ch := table[ch].(outbound := Some(OutboundQueue(senderId, seed, false)))]
  }

  /** The end of `open`: the first result wins. */
  function OpenCommitted(table: Table, ch: ChannelId, ids: QueueIds): Table {
    if Live(table, ch).Err? || table[ch].inbound.Some? then table
    else table[ch := table[ch].(inbound := Some(ids))]
  }

  /** The end of a rotation: the new seed and the queue made under it are recorded together. */
  function RotateCommitted(table: Table, ch: ChannelId, seed: Seed, ids: QueueIds): Table {
    if Live(table, ch).Err? then table
    else table[ch := table[ch].(recipientSeed := seed, inbound := Some(ids))]
  }

  function RetireCommitted(table: Table, ch: ChannelId): Table {
    if ch !in table then table else table[ch := table[ch].(retired := true)]
  }

  /** The end of a first send: the key is noted as bound if the channel still points at the same queue. */
  function MarkedBound(table: Table, ch: ChannelId, senderId: QueueId): Table {
    if ch in table && table[ch].outbound.Some? && table[ch].outbound.value.senderId == senderId
    then table[ch := table[ch].(outbound := Some(table[ch].outbound.value.(bound := true)))]
    else table
  }

  // ---- the server ----

  /** A queue's recipient key never changes; a sender key is bound once and never replaced. `senders` says which
      queue a sender id leads to. */
  datatype Server = Server(
    recipientKey: map<QueueId, Key>, retiredQueues: set<QueueId>, senders: map<QueueId, QueueId>,
    boundKey: map<QueueId, Key>)

  predicate FreshIds(s: Server, ids: QueueIds) {
    ids.recipientId !in s.recipientKey && ids.senderId !in s.senders && ids.senderId !in s.boundKey
  }

  function Created(s: Server, key: Key, ids: QueueIds): Server {
    s.(recipientKey := s.recipientKey[ids.recipientId := key], senders := s.senders[ids.senderId := ids.recipientId])
  }

  datatype Answer = Fine | NotFound | Unauthorized

  function RetireAnswer(s: Server, rid: QueueId, key: Key): Answer {
    if rid !in s.recipientKey || rid in s.retiredQueues then NotFound
    else if s.recipientKey[rid] != key then Unauthorized
    else Fine
  }

  function RetireEffect(s: Server, rid: QueueId, key: Key): Server {
    if RetireAnswer(s, rid, key).Fine? then s.(retiredQueues := s.retiredQueues + {rid}) else s
  }

  /** A send signed with `key`, offering it for binding or not. */
  function SendAnswer(s: Server, sid: QueueId, key: Key, bind: bool): Answer {
    if sid !in s.senders || s.senders[sid] in s.retiredQueues then NotFound
    else if sid in s.boundKey then (if s.boundKey[sid] == key then Fine else Unauthorized)
    else if bind then Fine
    else Unauthorized
  }

  function SendEffect(s: Server, sid: QueueId, key: Key, bind: bool): Server {
    if sid !in s.boundKey && SendAnswer(s, sid, key, bind).Fine? then s.(boundKey := s.boundKey[sid := key]) else s
  }

  // ---- operations under way ----

  /** What an operation does next. */
  datatype Task =
    | OpenCreate(ch: ChannelId, seed: Seed)
    | OpenCommit(ch: ChannelId, seed: Seed, ids: QueueIds)
    | RotateKey(ch: ChannelId, newSeed: Seed, previous: QueueIds)
    | RotateRetire(ch: ChannelId, newSeed: Seed, previous: QueueIds, seed: Seed)
    | RotateCreate(ch: ChannelId, newSeed: Seed)
    | RotateCommit(ch: ChannelId, newSeed: Seed, ids: QueueIds)
    | RetireKey(ch: ChannelId, previous: QueueIds)
    | RetireRequest(ch: ChannelId, previous: QueueIds, seed: Seed)
    | RetireCommit(ch: ChannelId)
    | SendRequest(ch: ChannelId, out: OutboundQueue)
    | SendMark(ch: ChannelId, senderId: QueueId)

  /** How a request fares: answered, answered into the void, or never delivered. */
  datatype Network = Answered | ReplyLost | Undelivered

  datatype System = System(table: Table, server: Server, tasks: map<nat, Task>)

  /** One step of the device, of the server on others' behalf, or of an operation under way. */
  datatype Action =
    | Declare(ch: ChannelId, seed: Seed)
    | Attach(ch: ChannelId, senderId: QueueId, seed: Seed)
    | StartOpen(t: nat, ch: ChannelId)
    | StartRotate(t: nat, ch: ChannelId, seed: Seed)
    | StartRetire(t: nat, ch: ChannelId)
    | StartSend(t: nat, ch: ChannelId)
    | Continue(t: nat, net: Network, made: QueueIds)
    | OthersCreate(ids: QueueIds, key: Key)
    | OthersRetire(rid: QueueId)
    | OthersSend(sid: QueueId, key: Key)

  function Begin(s: System, t: nat, task: Task): System {
    if t in s.tasks then s else s.(tasks := s.tasks[t := task])
  }

  function Done(s: System, t: nat): System {
    s.(tasks := s.tasks - {t})
  }

  function Go(s: System, t: nat, task: Task): System {
    s.(tasks := s.tasks[t := task])
  }

  /** Creating a queue: on success the operation goes on to `next`. */
  function CreateStep(s: System, t: nat, key: Key, net: Network, ids: QueueIds, next: Task): System {
    if net.Undelivered? || !FreshIds(s.server, ids) then Done(s, t)
    else
      var after := s.(server := Created(s.server, key, ids));
      if net.Answered? then Go(after, t, next) else Done(after, t)
  }

  /** Retiring a queue: already gone is as good as done; any other refusal ends the operation. */
  function RetireStep(s: System, t: nat, rid: QueueId, key: Key, net: Network, next: Task): System {
    if net.Undelivered? then Done(s, t)
    else
      var asked := s.(server := RetireEffect(s.server, rid, key));
      if net.Answered? && !RetireAnswer(s.server, rid, key).Unauthorized? then Go(asked, t, next) else Done(asked, t)
  }

  function SendStep(pub: Seed -> Key, s: System, t: nat, ch: ChannelId, out: OutboundQueue, net: Network): System {
    if net.Undelivered? then Done(s, t)
    else
      var key := pub(out.senderSeed);
      var asked := s.(server := SendEffect(s.server, out.senderId, key, !out.bound));
      if net.Answered? && SendAnswer(s.server, out.senderId, key, !out.bound).Fine? && !out.bound
      then Go(asked, t, SendMark(ch, out.senderId)) else Done(asked, t)
  }

  function Proceed(pub: Seed -> Key, s: System, t: nat, net: Network, made: QueueIds): System
    requires t in s.tasks
  {
    match s.tasks[t]
    case OpenCreate(ch, seed) => CreateStep(s, t, pub(seed), net, made, OpenCommit(ch, seed, made))
    case OpenCommit(ch, seed, ids) => Done(s, t).(table := OpenCommitted(s.table, ch, ids))
    case RotateKey(ch, newSeed, previous) =>
      if ch in s.table then Go(s, t, RotateRetire(ch, newSeed, previous, s.table[ch].recipientSeed)) else Done(s, t)
    case RotateRetire(ch, newSeed, previous, seed) =>
      RetireStep(s, t, previous.recipientId, pub(seed), net, RotateCreate(ch, newSeed))
    case RotateCreate(ch, newSeed) => CreateStep(s, t, pub(newSeed), net, made, RotateCommit(ch, newSeed, made))
    case RotateCommit(ch, newSeed, ids) => Done(s, t).(table := RotateCommitted(s.table, ch, newSeed, ids))
    case RetireKey(ch, previous) =>
      if ch in s.table then Go(s, t, RetireRequest(ch, previous, s.table[ch].recipientSeed)) else Done(s, t)
    case RetireRequest(ch, previous, seed) =>
      RetireStep(s, t, previous.recipientId, pub(seed), net, RetireCommit(ch))
    case RetireCommit(ch) => Done(s, t).(table := RetireCommitted(s.table, ch))
    case SendRequest(ch, out) => SendStep(pub, s, t, ch, out, net)
    case SendMark(ch, senderId) => Done(s, t).(table := MarkedBound(s.table, ch, senderId))
  }

  function Next(pub: Seed -> Key, s: System, a: Action): System {
    match a
    case Declare(ch, seed) => s.(table := Declared(s.table, ch, seed))
    case Attach(ch, senderId, seed) => s.(table := Attached(s.table, ch, senderId, seed))
    case StartOpen(t, ch) =>
      var live := Live(s.table, ch);
      if live.Err? || live.value.inbound.Some? then s else Begin(s, t, OpenCreate(ch, live.value.recipientSeed))
    case StartRotate(t, ch, seed) =>
      var live := Live(s.table, ch);
      if live.Err? then s
      else if live.value.inbound.Some? then Begin(s, t, RotateKey(ch, seed, live.value.inbound.value))
      else Begin(s, t, RotateCreate(ch, seed))
    case StartRetire(t, ch) =>
      var live := Live(s.table, ch);
      if live.Err? then s
      else if live.value.inbound.Some? then Begin(s, t, RetireKey(ch, live.value.inbound.value))
      else Begin(s, t, RetireCommit(ch))
    case StartSend(t, ch) =>
      var live := Live(s.table, ch);
      if live.Err? || live.value.outbound.None? then s else Begin(s, t, SendRequest(ch, live.value.outbound.value))
    case Continue(t, net, made) => if t in s.tasks then Proceed(pub, s, t, net, made) else s
    case OthersCreate(ids, key) => if FreshIds(s.server, ids) then s.(server := Created(s.server, key, ids)) else s
    case OthersRetire(rid) => s.(server := s.server.(retiredQueues := s.server.retiredQueues + {rid}))
    case OthersSend(sid, key) => s.(server := SendEffect(s.server, sid, key, true))
  }

  function Initial(): System {
    System(map[], Server(map[], {}, map[], map[]), map[])
  }

  function Run(pub: Seed -> Key, start: System, actions: seq<Action>): System {
    if actions == [] then start else Next(pub, Run(pub, start, actions[..|actions| - 1]), actions[|actions| - 1])
  }
}
