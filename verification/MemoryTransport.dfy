/** The in-memory transport and its subscriptions as the source keeps them, changed in place. */
module MemoryTransportObject {
  import opened Wrappers
  import opened MemoryQueue

  class MemoryTransport {
    var channels: map<ChannelId, Channel>
    var nextId: nat

    constructor ()
      ensures Value() == State(map[], 0)
    {
      channels, nextId := map[], 0;
    }

    function Value(): State
      reads this
    {
      State(channels, nextId)
    }

    method Open(ch: ChannelId) returns (result: Result<(), TransportError>)
      modifies this
      ensures (Value(), result) == Opened(old(Value()), ch)
    {
      if ch !in channels {
        channels := channels[ch := Channel([], false)];
        return Ok(());
      }
      if channels[ch].retired {
        return Err(Retired(ch));
      }
      result := Ok(());
    }

    method Retire(ch: ChannelId) returns (result: Result<(), TransportError>)
      modifies this
      ensures (Value(), result) == RetiredNow(old(Value()), ch)
    {
      if ch !in channels {
        return Err(UnknownChannel(ch));
      }
      channels := channels[ch := Channel([], true)];
      result := Ok(());
    }

    method Send(ch: ChannelId, ciphertext: Bytes) returns (result: Result<MessageId, TransportError>)
      modifies this
      ensures (Value(), result) == SentOn(old(Value()), ch, ciphertext)
    {
      nextId := nextId + 1;
      var id := MessageIdOf(nextId);
      if ch !in channels {
        return Err(UnknownChannel(ch));
      }
      var entry := channels[ch];
      if entry.retired {
        return Err(Retired(ch));
      }
      channels := channels[ch := entry.(pending := entry.pending + [Stored(id, ciphertext)])];
      result := Ok(id);
    }

    /** A fresh cursor over a channel that can be read. */
    method Subscribe(ch: ChannelId) returns (result: Result<MemorySubscription, TransportError>)
      ensures result.Err? ==> result.error == if ch in channels then Retired(ch) else UnknownChannel(ch)
      ensures result.Ok? <==> ch in channels && !channels[ch].retired
      ensures result.Ok? ==> fresh(result.value) && result.value.transport == this && result.value.channel == ch
                             && result.value.cursor == 0
    {
      if ch !in channels {
        return Err(UnknownChannel(ch));
      }
      if channels[ch].retired {
        return Err(Retired(ch));
      }
      var subscription := new MemorySubscription(this, ch);
      result := Ok(subscription);
    }

    method Ack(ch: ChannelId, id: MessageId) returns (result: Result<(), TransportError>)
      modifies this
      ensures (Value(), result) == Acked(old(Value()), ch, id)
    {
      if ch !in channels {
        return Err(UnknownChannel(ch));
      }
      var entry := channels[ch];
      if entry.retired {
        return Err(Retired(ch));
      }
      var kept: seq<Stored> := [];
      for i := 0 to |entry.pending|
        invariant kept == Without(entry.pending[..i], id)
      {
        assert entry.pending[..i + 1][..i] == entry.pending[..i];
        if entry.pending[i].id != id {
          kept := kept + [entry.pending[i]];
        }
      }
      assert entry.pending[..|entry.pending|] == entry.pending;
      channels := channels[ch := entry.(pending := kept)];
      result := Ok(());
    }
  }

  /** One reader of a channel: how far along the pending messages it has come. */
  class MemorySubscription {
    const transport: MemoryTransport
    const channel: ChannelId
    var cursor: nat

    constructor (transport: MemoryTransport, channel: ChannelId)
      ensures this.transport == transport && this.channel == channel && cursor == 0
    {
      this.transport, this.channel, cursor := transport, channel, 0;
    }

    method NextDelivery() returns (result: Result<Option<Stored>, TransportError>)
      modifies this
      ensures (result, cursor) == Pulled(transport.Value(), channel, old(cursor))
    {
      if channel !in transport.channels {
        return Err(UnknownChannel(channel));
      }
      var entry := transport.channels[channel];
      if entry.retired {
        return Err(Retired(channel));
      }
      if cursor < |entry.pending| {
        cursor := cursor + 1;
        return Ok(Some(entry.pending[cursor - 1]));
      }
      result := Ok(None);
    }
  }
}
