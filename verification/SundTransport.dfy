/** The lock regions of the Sund transport, on the table they share. Each method is what one thread does while
    it holds the lock; requests to the server happen between them. */
module SundTransportObject {
  import opened Wrappers
  import opened ChannelTable

  class SundTransport {
    var channels: Table

    constructor ()
      ensures channels == map[]
    {
      channels := map[];
    }

    method Declare(ch: ChannelId, recipientSeed: Seed)
      modifies this
      ensures channels == Declared(old(channels), ch, recipientSeed)
    {
      if ch !in channels {
        channels := channels[ch := ChannelRecord(recipientSeed, None, None, false)];
      }
    }

    method LookUpLive(ch: ChannelId) returns (result: Result<ChannelRecord, TransportError>)
      ensures result == Live(channels, ch)
    {
      if ch !in channels {
        return Err(UnknownChannel);
      }
      if channels[ch].retired {
        return Err(Retired);
      }
      result := Ok(channels[ch]);
    }

    method AttachOutbound(ch: ChannelId, senderId: QueueId, senderSeed: Seed)
      returns (result: Result<(), TransportError>)
      modifies this
      ensures channels == Attached(old(channels), ch, senderId, senderSeed)
      ensures result == if Live(old(channels), ch).Ok? then Ok(()) else Err(Live(old(channels), ch).error)
    {
      var live := LookUpLive(ch);
      if live.Err? {
        return Err(live.error);
      }
      channels := channels[ch := live.value.(outbound := Some(OutboundQueue(senderId, senderSeed, false)))];
      result := Ok(());
    }

    /** The first region of `open`: the seed to create the queue under, unless there is a queue already. */
    method ReadForOpen(ch: ChannelId) returns (result: Result<Option<Seed>, TransportError>)
      ensures var live := Live(channels, ch);
              result == if live.Err? then Err(live.error)
                        else if live.value.inbound.Some? then Ok(None)
                        else Ok(Some(live.value.recipientSeed))
    {
      var live := LookUpLive(ch);
      if live.Err? {
        return Err(live.error);
      }
      if live.value.inbound.Some? {
        return Ok(None);
      }
      result := Ok(Some(live.value.recipientSeed));
    }

    /** The last region of `open`. */
    method CommitOpen(ch: ChannelId, ids: QueueIds) returns (result: Result<(), TransportError>)
      modifies this
      ensures channels == OpenCommitted(old(channels), ch, ids)
      ensures result == if Live(old(channels), ch).Ok? then Ok(()) else Err(Live(old(channels), ch).error)
    {
      var live := LookUpLive(ch);
      if live.Err? {
        return Err(live.error);
      }
      if live.value.inbound.None? {
        channels := channels[ch := live.value.(inbound := Some(ids))];
      }
      result := Ok(());
    }

    /** The last region of a rotation. */
    method CommitRotation(ch: ChannelId, newSeed: Seed, ids: QueueIds) returns (result: Result<QueueIds, TransportError>)
      modifies this
      ensures channels == RotateCommitted(old(channels), ch, newSeed, ids)
      ensures result == if Live(old(channels), ch).Ok? then Ok(ids) else Err(Live(old(channels), ch).error)
    {
      var live := LookUpLive(ch);
      if live.Err? {
        return Err(live.error);
      }
      channels := channels[ch := live.value.(recipientSeed := newSeed, inbound := Some(ids))];
      result := Ok(ids);
    }

    /** The last region of `retire`: no check for a retired channel here. */
    method CommitRetire(ch: ChannelId) returns (result: Result<(), TransportError>)
      modifies this
      ensures channels == RetireCommitted(old(channels), ch)
      ensures result == if ch in old(channels) then Ok(()) else Err(UnknownChannel)
    {
      if ch !in channels {
        return Err(UnknownChannel);
      }
      channels := channels[ch := channels[ch].(retired := true)];
      result := Ok(());
    }

    /** The last region of a first send. */
    method NoteBound(ch: ChannelId, senderId: QueueId)
      modifies this
      ensures channels == MarkedBound(old(channels), ch, senderId)
    {
      if ch in channels && channels[ch].outbound.Some? {
        var existing := channels[ch].outbound.value;
        if existing.senderId == senderId {
          channels := channels[ch := channels[ch].(outbound := Some(existing.(bound := true)))];
        }
      }
    }
  }
}
