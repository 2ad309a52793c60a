/** The in-memory transport as values, and the contract of the port it stands for: at-least-once delivery,
    in order, per channel. */
module MemoryQueue {
  import opened Wrappers
  import opened Decimals

  type ChannelId = string
  type MessageId = string
  type Bytes = string

  datatype Stored = Stored(id: MessageId, ciphertext: Bytes)

  datatype Channel = Channel(pending: seq<Stored>, retired: bool)

  datatype State = State(channels: map<ChannelId, Channel>, nextId: nat)

  datatype TransportError = UnknownChannel(channel: ChannelId) | Retired(channel: ChannelId)

  // ---- message ids ----

  function MessageIdOf(n: nat): MessageId {
    "m" + Decimal(n)
  }

  // ---- operations ----

  function Opened(s: State, ch: ChannelId): (State, Result<(), TransportError>) {
    if ch !in s.channels then (s.(channels := s.channels[ch := Channel([], false)]), Ok(()))
    else if s.channels[ch].retired then (s, Err(Retired(ch)))
    else (s, Ok(()))
  }

  function RetiredNow(s: State, ch: ChannelId): (State, Result<(), TransportError>) {
    if ch !in s.channels then (s, Err(UnknownChannel(ch)))
    else (s.(channels := s.channels[ch := Channel([], true)]), Ok(()))
  }

  /** A send takes an id before it looks at the channel, so a refused send uses one up. */
  function SentOn(s: State, ch: ChannelId, ciphertext: Bytes): (State, Result<MessageId, TransportError>) {
    var n := s.nextId + 1;
    var counted := s.(nextId := n);
    if ch !in s.channels then (counted, Err(UnknownChannel(ch)))
    else if s.channels[ch].retired then (counted, Err(Retired(ch)))
    else
      var c := s.channels[ch];
      (counted.(channels := s.channels[ch := c.(pending := c.pending + [Stored(MessageIdOf(n), ciphertext)])]),
       Ok(MessageIdOf(n)))
  }

  function Without(pending: seq<Stored>, id: MessageId): seq<Stored> {
    if pending == [] then [] else
      Without(pending[..|pending| - 1], id)
        + if pending[|pending| - 1].id == id then [] else [pending[|pending| - 1]]
  }

  function Acked(s: State, ch: ChannelId, id: MessageId): (State, Result<(), TransportError>) {
    if ch !in s.channels then (s, Err(UnknownChannel(ch)))
    else if s.channels[ch].retired then (s, Err(Retired(ch)))
    else
      var c := s.channels[ch];
      (s.(channels := s.channels[ch := c.(pending := Without(c.pending, id))]), Ok(()))
  }

  /** Pulling the message at a subscription's cursor: what is delivered, and where the cursor then stands. */
  function Pulled(s: State, ch: ChannelId, cursor: nat): (Result<Option<Stored>, TransportError>, nat) {
    if ch !in s.channels then (Err(UnknownChannel(ch)), cursor)
    else if s.channels[ch].retired then (Err(Retired(ch)), cursor)
    else if cursor < |s.channels[ch].pending| then (Ok(Some(s.channels[ch].pending[cursor])), cursor + 1)
    else (Ok(None), cursor)
  }

  // ---- runs ----

  datatype Op =
    | Open(ch: ChannelId)
    | Retire(ch: ChannelId)
    | Send(ch: ChannelId, ciphertext: Bytes)
    | Ack(ch: ChannelId, id: MessageId)

  function After(s: State, op: Op): State {
    match op
    case Open(ch) => Opened(s, ch).0
    case Retire(ch) => RetiredNow(s, ch).0
    case Send(ch, ciphertext) => SentOn(s, ch, ciphertext).0
    case Ack(ch, id) => Acked(s, ch, id).0
  }

  function Run(ops: seq<Op>): State {
    if ops == [] then State(map[], 0) else After(Run(ops[..|ops| - 1]), ops[|ops| - 1])
  }

  /** How many sends, accepted or not, the run has made. */
  function Sends(ops: seq<Op>): nat {
    if ops == [] then 0 else Sends(ops[..|ops| - 1]) + if ops[|ops| - 1].Send? then 1 else 0
  }

  function OpensFirst(ops: seq<Op>, ch: ChannelId): bool {
    exists i :: 0 <= i < |ops| && ops[i] == Open(ch)
  }

  /** The message the `i`-th operation would leave on the channel. */
  function MessageAt(ops: seq<Op>, i: nat): Stored
    requires i < |ops| && ops[i].Send?
  {
    Stored(MessageIdOf(Sends(ops[..i]) + 1), ops[i].ciphertext)
  }

  /** An acknowledgement of the message sent at `i`, made after it was sent. */
  predicate AckedAfter(ops: seq<Op>, i: nat)
    requires i < |ops| && ops[i].Send?
  {
    exists j :: i < j < |ops| && ops[j] == Ack(ops[i].ch, MessageAt(ops, i).id)
  }

  /** What the `i`-th operation leaves outstanding on a channel at the end of the run. */
  function Contribution(ops: seq<Op>, ch: ChannelId, i: nat): seq<Stored>
    requires i < |ops|
  {
    if ops[i].Send? && ops[i].ch == ch && OpensFirst(ops[..i], ch) && !AckedAfter(ops, i) then [MessageAt(ops, i)]
    else []
  }

  /** The messages accepted on a channel since it was first opened, less those acknowledged since, in the order
      they were sent: read off the list of operations alone. */
  function Outstanding(ops: seq<Op>, ch: ChannelId, n: nat): seq<Stored>
    requires n <= |ops|
  {
    if n == 0 then [] else Outstanding(ops, ch, n - 1) + Contribution(ops, ch, n - 1)
  }
}
