/** The offline outbox as values: the queue, and what each operation makes of it.

    The encrypting session manager and the transport are represented by an `Oracle`, which may answer
    every call of a pass differently. Times are whole seconds since 1970, as the source stores them. */
module OutboxModel {
  import opened Wrappers
  import opened StringOrder

  type ChannelId = string
  type Bytes = string

  const MAX_QUEUED_PER_CHANNEL: nat := 200
  const BACKOFF_BASE: nat := 30
  const BACKOFF_CEILING: nat := 900

  function Pow2(n: nat): (p: nat)
    ensures p >= 1
  {
    if n == 0 then 1 else 2 * Pow2(n - 1)
  }

  /** The wait after a failed attempt: doubling from half a minute to a quarter of an hour. */
  function BackoffFor(attempts: nat): nat {
    Min(BACKOFF_BASE * Pow2(Min(attempts, 16)), BACKOFF_CEILING)
  }

  // ---- what is queued ----

  datatype Enqueue = Enqueue(
    channel: ChannelId, peer: string, plaintext: Bytes, highPriority: bool,
    ttl: Option<nat>, expiresAt: Option<nat>, coalesceKey: Option<string>)

  datatype Entry = Entry(
    id: nat, channel: ChannelId, peer: string, plaintext: Bytes, highPriority: bool,
    ttl: Option<nat>, expiresAt: Option<nat>, coalesceKey: Option<string>,
    enqueuedAt: nat, attempts: nat, notBefore: nat)

  datatype Box = Box(entries: seq<Entry>, nextId: nat)

  predicate Durable(e: Entry) {
    e.expiresAt.None?
  }

  // ---- what is reported ----

  datatype DropReason = Expired | Superseded | ChannelRetired | ChannelUnknown | PeerForgotten

  datatype DeferReason = Unreachable(detail: string) | SessionLost | PeerUnknown | NoSession

  datatype Sent = Sent(id: nat, channel: ChannelId, peer: string, messageId: string, queuedFor: nat)

  datatype Dropped = Dropped(id: nat, channel: ChannelId, peer: string, reason: DropReason)

  datatype Deferred = Deferred(
    id: nat, channel: ChannelId, peer: string, reason: DeferReason, attempts: nat)

  datatype Report = Report(sent: seq<Sent>, dropped: seq<Dropped>, deferred: seq<Deferred>)

  datatype EnqueueOutcome = Queued(id: nat, replaced: Option<Dropped>) | Full(channel: ChannelId)

  // ---- the rules by which entries leave the queue ----

  /** Which entries a search or a `retain` is about. */
  datatype Rule =
    | SameKey(channel: ChannelId, key: string)
    | StaleOn(channel: ChannelId)
    | OnChannel(channel: ChannelId)
    | OfPeer(peer: string)
    | ExpiredAt(now: nat)
    | Backlog(channel: ChannelId, except: seq<nat>)
    | WithId(ids: seq<nat>)

  predicate Hits(r: Rule, e: Entry) {
    match r
    case SameKey(c, k) => e.channel == c && e.coalesceKey == Some(k)
    case StaleOn(c) => e.channel == c && !Durable(e)
    case OnChannel(c) => e.channel == c
    case OfPeer(p) => e.peer == p
    case ExpiredAt(now) => e.expiresAt.Some? && now >= e.expiresAt.value
    case Backlog(c, except) => e.channel == c && e.id !in except
    case WithId(ids) => e.id in ids
  }

  function Kept(r: Rule, s: seq<Entry>): (t: seq<Entry>)
    ensures forall e :: e in t <==> e in s && !Hits(r, e)
  {
    if s == [] then [] else
      Kept(r, s[..|s| - 1]) + if Hits(r, s[|s| - 1]) then [] else [s[|s| - 1]]
  }

  function Lost(r: Rule, s: seq<Entry>): (t: seq<Entry>)
    ensures forall e :: e in t <==> e in s && Hits(r, e)
  {
    if s == [] then [] else
      Lost(r, s[..|s| - 1]) + if Hits(r, s[|s| - 1]) then [s[|s| - 1]] else []
  }

  function FirstHit(r: Rule, s: seq<Entry>): (i: Option<nat>)
    ensures i.Some? ==> i.value < |s| && Hits(r, s[i.value]) && forall j :: 0 <= j < i.value ==> !Hits(r, s[j])
    ensures i.None? ==> forall j :: 0 <= j < |s| ==> !Hits(r, s[j])
  {
    if s == [] then None else
      var i := FirstHit(r, s[..|s| - 1]);
      if i.Some? then i else if Hits(r, s[|s| - 1]) then Some(|s| - 1) else None
  }

  function WithoutIndex(s: seq<Entry>, i: nat): seq<Entry>
    requires i < |s|
  {
    s[..i] + s[i + 1..]
  }

  function DropAs(e: Entry, reason: DropReason): Dropped {
    Dropped(e.id, e.channel, e.peer, reason)
  }

  function DropAll(s: seq<Entry>, reason: DropReason): (d: seq<Dropped>)
    ensures |d| == |s|
    ensures forall i :: 0 <= i < |s| ==> d[i] == DropAs(s[i], reason)
  {
    if s == [] then [] else DropAll(s[..|s| - 1], reason) + [DropAs(s[|s| - 1], reason)]
  }

  // ---- the ids each list speaks of ----

  function Ids(s: seq<Entry>): (ids: seq<nat>)
    ensures |ids| == |s| && forall i :: 0 <= i < |s| ==> ids[i] == s[i].id
  {
    if s == [] then [] else Ids(s[..|s| - 1]) + [s[|s| - 1].id]
  }

  function SentIds(s: seq<Sent>): (ids: seq<nat>)
    ensures |ids| == |s| && forall i :: 0 <= i < |s| ==> ids[i] == s[i].id
  {
    if s == [] then [] else SentIds(s[..|s| - 1]) + [s[|s| - 1].id]
  }

  function DroppedIds(s: seq<Dropped>): (ids: seq<nat>)
    ensures |ids| == |s| && forall i :: 0 <= i < |s| ==> ids[i] == s[i].id
  {
    if s == [] then [] else DroppedIds(s[..|s| - 1]) + [s[|s| - 1].id]
  }

  function DeferredIds(s: seq<Deferred>): (ids: seq<nat>)
    ensures |ids| == |s| && forall i :: 0 <= i < |s| ==> ids[i] == s[i].id
  {
    if s == [] then [] else DeferredIds(s[..|s| - 1]) + [s[|s| - 1].id]
  }

  // ---- enqueue ----

  function NewEntry(id: nat, m: Enqueue, now: nat): Entry {
    Entry(id, m.channel, m.peer, m.plaintext, m.highPriority, m.ttl, m.expiresAt, m.coalesceKey, now, 0, now)
  }

  function Append(box: Box, m: Enqueue, now: nat): Box {
    Box(box.entries + [NewEntry(box.nextId, m, now)], box.nextId + 1)
  }

  /** The entry an accepted message pushes out, if any, with the reason it is given. */
  function Displaced(entries: seq<Entry>, m: Enqueue): Option<(nat, DropReason)> {
    var twin := if m.coalesceKey.Some? then FirstHit(SameKey(m.channel, m.coalesceKey.value), entries) else None;
    if twin.Some? then Some((twin.value, Superseded))
    else if |Lost(OnChannel(m.channel), entries)| < MAX_QUEUED_PER_CHANNEL then None
    else
      var stale := FirstHit(StaleOn(m.channel), entries);
      if stale.Some? then Some((stale.value, Expired)) else None
  }

  predicate Refuses(entries: seq<Entry>, m: Enqueue) {
    Displaced(entries, m).None? && |Lost(OnChannel(m.channel), entries)| >= MAX_QUEUED_PER_CHANNEL
  }

  function Enqueued(box: Box, m: Enqueue, now: nat): (Box, EnqueueOutcome) {
    if Refuses(box.entries, m) then (box, Full(m.channel))
    else
      var out := Displaced(box.entries, m);
      if out.None? then (Append(box, m, now), Queued(box.nextId, None))
      else
        var (index, reason) := out.value;
        (Append(Box(WithoutIndex(box.entries, index), box.nextId), m, now),
         Queued(box.nextId, Some(DropAs(box.entries[index], reason))))
  }

  // ---- drain: the environment ----

  datatype SealAnswer = Sealed(frame: Bytes) | SessionLostError | UnknownPeerError | NoSessionError
                      | OtherSessionError(text: string)

  datatype Outbound = Outbound(ciphertext: Bytes, highPriority: bool, ttl: Option<nat>)

  datatype PostAnswer = Accepted(messageId: string) | RetiredError | UnknownChannelError
                      | BackendError(detail: string)

  /** What the session manager and the transport answer, given how many calls the pass has made before. */
  datatype Oracle = Oracle(seal: (nat, string, Bytes) -> SealAnswer,
                           post: (nat, ChannelId, Outbound) -> PostAnswer)

  /** One call made by a pass, labelled with the place in the sending order and the entry it was made for. */
  datatype Call =
    | Seal(slot: nat, id: nat, peer: string, plaintext: Bytes, sealAnswer: SealAnswer)
    | Post(slot: nat, id: nat, channel: ChannelId, outbound: Outbound, postAnswer: PostAnswer)

  // ---- drain: the order of sending ----

  predicate Before(a: Entry, b: Entry) {
    if a.highPriority != b.highPriority then a.highPriority
    else if a.enqueuedAt != b.enqueuedAt then a.enqueuedAt < b.enqueuedAt
    else a.id < b.id
  }

  predicate Indices(entries: seq<Entry>, order: seq<nat>) {
    forall i :: 0 <= i < |order| ==> order[i] < |entries|
  }

  function DueIndices(entries: seq<Entry>, now: nat): (due: seq<nat>)
    ensures forall i :: 0 <= i < |due| ==> due[i] < |entries|
  {
    if entries == [] then [] else
      var n := |entries| - 1;
      DueIndices(entries[..n], now) + if entries[n].notBefore <= now then [n] else []
  }

  function Place(entries: seq<Entry>, x: nat, order: seq<nat>): seq<nat>
    requires Indices(entries, order) && x < |entries|
  {
    if order == [] then [x]
    else if Before(entries[order[|order| - 1]], entries[x]) then order + [x]
    else Place(entries, x, order[..|order| - 1]) + [order[|order| - 1]]
  }

  lemma {:induction false} PlaceElements(entries: seq<Entry>, x: nat, order: seq<nat>)
    requires Indices(entries, order) && x < |entries|
    ensures Indices(entries, Place(entries, x, order))
    ensures multiset(Place(entries, x, order)) == multiset(order) + multiset{x}
  {
    if order != [] {
      assert order == order[..|order| - 1] + [order[|order| - 1]];
      PlaceElements(entries, x, order[..|order| - 1]);
    }
  }

  function SortByKey(entries: seq<Entry>, due: seq<nat>): (order: seq<nat>)
    requires Indices(entries, due)
    ensures Indices(entries, order)
  {
    if due == [] then [] else
      var rest := SortByKey(entries, due[..|due| - 1]);
      PlaceElements(entries, due[|due| - 1], rest);
      Place(entries, due[|due| - 1], rest)
  }

  function SendOrder(entries: seq<Entry>, now: nat, budget: nat): (order: seq<nat>)
    ensures Indices(entries, order)
  {
    var sorted := SortByKey(entries, DueIndices(entries, now));
    sorted[..Min(budget, |sorted|)]
  }

  // ---- drain: one pass ----

  datatype Pass = Pass(
    entries: seq<Entry>, report: Report, sentIds: seq<nat>, droppedIds: seq<nat>,
    failed: map<ChannelId, DeferReason>, trace: seq<Call>)

  function BackedOff(e: Entry, now: nat): Entry {
    e.(attempts := e.attempts + 1, notBefore := now + BackoffFor(e.attempts + 1))
  }

  function SealReason(answer: SealAnswer): DeferReason
    requires !answer.Sealed?
  {
    match answer
    case SessionLostError => SessionLost
    case UnknownPeerError => PeerUnknown
    case NoSessionError => NoSession
    case OtherSessionError(text) => Unreachable(text)
  }

  function Defer(p: Pass, e: Entry, reason: DeferReason, attempts: nat): Pass {
    p.(report := p.report.(deferred := p.report.deferred + [Deferred(e.id, e.channel, e.peer, reason, attempts)]))
  }

  function Retry(p: Pass, x: nat, reason: DeferReason, now: nat): Pass
    requires x < |p.entries|
  {
    var e := p.entries[x];
    Defer(p, e, reason, e.attempts + 1).(entries := p.entries[x := BackedOff(e, now)])
  }

  function Bury(p: Pass, e: Entry, reason: DropReason): Pass {
    p.(report := p.report.(dropped := p.report.dropped + [DropAs(e, reason)]),
       droppedIds := p.droppedIds + [e.id],
       failed := p.failed[e.channel := NoSession])
  }

  function MarkSent(p: Pass, e: Entry, messageId: string, now: nat): Pass {
    p.(report := p.report.(sent := p.report.sent
                             + [Sent(e.id, e.channel, e.peer, messageId, Max(now - e.enqueuedAt, 0))]),
       sentIds := p.sentIds + [e.id])
  }

  /** What the transport's answer to one sealed entry does. */
  function Posted(p: Pass, x: nat, answer: PostAnswer, now: nat): Pass
    requires x < |p.entries|
  {
    var e := p.entries[x];
    match answer
    case Accepted(messageId) => MarkSent(p, e, messageId, now)
    case RetiredError => Bury(p, e, ChannelRetired)
    case UnknownChannelError => Bury(p, e, ChannelUnknown)
    case BackendError(detail) =>
      Retry(p, x, Unreachable(detail), now).(failed := p.failed[e.channel := Unreachable(detail)])
  }

  function Note(p: Pass, c: Call): Pass {
    p.(trace := p.trace + [c])
  }

  /** One turn of the sending loop: the entry at index `x`, at place `slot` in the order. */
  function Turn(p: Pass, slot: nat, x: nat, o: Oracle, now: nat): Pass
    requires x < |p.entries|
  {
    var e := p.entries[x];
    if e.channel in p.failed then Defer(p, e, p.failed[e.channel], e.attempts)
    else
      var sealing := o.seal(|p.trace|, e.peer, e.plaintext);
      var q := Note(p, Seal(slot, e.id, e.peer, e.plaintext, sealing));
      if !sealing.Sealed? then Retry(q, x, SealReason(sealing), now)
      else
        var outbound := Outbound(sealing.frame, e.highPriority, e.ttl);
        var posting := o.post(|q.trace|, e.channel, outbound);
        Posted(Note(q, Post(slot, e.id, e.channel, outbound, posting)), x, posting, now)
  }

  function Turns(p: Pass, order: seq<nat>, o: Oracle, now: nat): (q: Pass)
    requires Indices(p.entries, order)
    ensures |q.entries| == |p.entries|
  {
    if order == [] then p
    else
      var n := |order| - 1;
      Turn(Turns(p, order[..n], o, now), n, order[n], o, now)
  }

  // ---- drain: dead channels ----

  function DeadChannels(failed: map<ChannelId, DeferReason>): set<ChannelId> {
    set c | c in failed && failed[c] == NoSession
  }

  function BurialReason(dropped: seq<Dropped>, channel: ChannelId): DropReason {
    if exists d :: d in dropped && d.channel == channel && d.reason == ChannelRetired then ChannelRetired
    else ChannelUnknown
  }

  function KeptDeferred(s: seq<Deferred>, gone: seq<nat>): (t: seq<Deferred>)
    ensures forall d :: d in t <==> d in s && d.id !in gone
  {
    if s == [] then [] else
      KeptDeferred(s[..|s| - 1], gone) + if s[|s| - 1].id in gone then [] else [s[|s| - 1]]
  }

  function Purge(p: Pass, channel: ChannelId): Pass {
    var rule := Backlog(channel, p.droppedIds);
    var gone := Lost(rule, p.entries);
    var reason := BurialReason(p.report.dropped, channel);
    p.(entries := Kept(rule, p.entries),
       report := p.report.(dropped := p.report.dropped + DropAll(gone, reason),
                           deferred := KeptDeferred(p.report.deferred, Ids(gone))))
  }

  function PurgeAll(p: Pass, dead: seq<ChannelId>): Pass {
    if dead == [] then p else Purge(PurgeAll(p, dead[..|dead| - 1]), dead[|dead| - 1])
  }

  // ---- drain ----

  function Start(box: Box, now: nat): Pass {
    Pass(Kept(ExpiredAt(now), box.entries),
         Report([], DropAll(Lost(ExpiredAt(now), box.entries), Expired), []), [], [], map[], [])
  }

  /** The pass as it stands when the sending loop ends. */
  function Sending(box: Box, o: Oracle, now: nat, budget: nat): Pass {
    var p := Start(box, now);
    Turns(p, SendOrder(p.entries, now, budget), o, now)
  }

  function Purged(box: Box, o: Oracle, now: nat, budget: nat): Pass {
    var p := Sending(box, o, now, budget);
    PurgeAll(p, SortedKeys(DeadChannels(p.failed)))
  }

  function Drained(box: Box, o: Oracle, now: nat, budget: nat): Box {
    var p := Purged(box, o, now, budget);
    Box(Kept(WithId(p.sentIds + p.droppedIds), p.entries), box.nextId)
  }

  function DrainReport(box: Box, o: Oracle, now: nat, budget: nat): Report {
    Purged(box, o, now, budget).report
  }

  function DrainTrace(box: Box, o: Oracle, now: nat, budget: nat): seq<Call> {
    Sending(box, o, now, budget).trace
  }

  // ---- forget, export, import ----

  function Forgotten(box: Box, peer: string): Box {
    box.(entries := Kept(OfPeer(peer), box.entries))
  }

  function ForgottenReport(box: Box, peer: string): seq<Dropped> {
    DropAll(Lost(OfPeer(peer), box.entries), PeerForgotten)
  }

  const SNAPSHOT_VERSION: nat := 1

  datatype Snapshot = Snapshot(v: nat, nextId: nat, entries: seq<Entry>)

  datatype SnapshotError = UnsupportedVersion(found: nat)

  function Export(box: Box): Snapshot {
    Snapshot(SNAPSHOT_VERSION, box.nextId, box.entries)
  }

  function Import(s: Snapshot): Result<Box, SnapshotError> {
    if s.v != SNAPSHOT_VERSION then Err(UnsupportedVersion(s.v)) else Ok(Box(s.entries, s.nextId))
  }
}
