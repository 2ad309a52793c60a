/** What the in-memory transport answers, after any run: read off the operations alone. */
module MemoryAnswers {
  import opened Wrappers
  import opened Decimals
  import opened MemoryQueue
  import opened MemoryDelivery

  /** The channel has been retired after it was opened. */
  ghost predicate WasRetired(ops: seq<Op>, ch: ChannelId) {
    exists i, j :: 0 <= i < j < |ops| && ops[i] == Open(ch) && ops[j] == Retire(ch)
  }

  lemma RetiredMore(ops: seq<Op>, op: Op, ch: ChannelId)
    ensures WasRetired(ops + [op], ch) <==> WasRetired(ops, ch) || (op == Retire(ch) && OpensFirst(ops, ch))
  {
    var more := ops + [op];
    if WasRetired(ops, ch) {
      var i, j :| 0 <= i < j < |ops| && ops[i] == Open(ch) && ops[j] == Retire(ch);
      assert more[i] == Open(ch) && more[j] == Retire(ch);
    }
    if op == Retire(ch) && OpensFirst(ops, ch) {
      var i :| 0 <= i < |ops| && ops[i] == Open(ch);
      assert more[i] == Open(ch) && more[|ops|] == Retire(ch);
    }
    if WasRetired(more, ch) {
      var i, j :| 0 <= i < j < |more| && more[i] == Open(ch) && more[j] == Retire(ch);
      assert ops[i] == Open(ch);
      if j < |ops| {
        assert ops[j] == Retire(ch);
      }
    }
  }

  /** One operation changes what is known of a channel by being an opening or a retirement of it. */
  lemma StepStanding(s: State, op: Op, ch: ChannelId)
    ensures var q := After(s, op);
            && (ch in q.channels <==> ch in s.channels || op == Open(ch))
            && (ch in q.channels && q.channels[ch].retired <==>
                  ch in s.channels && (s.channels[ch].retired || op == Retire(ch)))
  {
  }

  /** A channel is known exactly if it was opened, and retired exactly if it was retired after that. */
  lemma {:induction false} Standing(ops: seq<Op>, ch: ChannelId)
    ensures ch in Run(ops).channels <==> OpensFirst(ops, ch)
    ensures ch in Run(ops).channels && Run(ops).channels[ch].retired <==> WasRetired(ops, ch)
  {
    if ops != [] {
      var front, op := ops[..|ops| - 1], ops[|ops| - 1];
      assert ops == front + [op];
      Standing(front, ch);
      StepStanding(Run(front), op, ch);
      OpensFirstAppend(front, op, ch);
      RetiredMore(front, op, ch);
    }
  }

  /** An answer that is good exactly for a channel that was opened and not retired, and says otherwise which it is. */
  ghost predicate Passes(ops: seq<Op>, ch: ChannelId, good: bool, error: Option<TransportError>) {
    && (good <==> OpensFirst(ops, ch) && !WasRetired(ops, ch))
    && error == if !OpensFirst(ops, ch) then Some(UnknownChannel(ch))
                else if WasRetired(ops, ch) then Some(Retired(ch)) else None
  }

  /** After any run: opening fails only on a retired channel, retiring only on one never opened; sending, acknowledging and
      pulling fail exactly where the channel was never opened or is retired, each with the error that says which; and a
      message sent is answered with its number among all the sends so far. */
  lemma Answers(ops: seq<Op>, ch: ChannelId, ciphertext: Bytes, id: MessageId, cursor: nat)
    ensures Opened(Run(ops), ch).1 == if WasRetired(ops, ch) then Err(Retired(ch)) else Ok(())
    ensures RetiredNow(Run(ops), ch).1 == if OpensFirst(ops, ch) then Ok(()) else Err(UnknownChannel(ch))
    ensures var a := SentOn(Run(ops), ch, ciphertext).1;
            && Passes(ops, ch, a.Ok?, if a.Ok? then None else Some(a.error))
            && (a.Ok? ==> a.value == "m" + Decimal(Sends(ops) + 1))
    ensures var a := Acked(Run(ops), ch, id).1; Passes(ops, ch, a.Ok?, if a.Ok? then None else Some(a.error))
    ensures var (a, after) := Pulled(Run(ops), ch, cursor);
            Passes(ops, ch, a.Ok?, if a.Ok? then None else Some(a.error)) && (a.Err? ==> after == cursor)
  {
    Standing(ops, ch);
    NextIdCountsSends(ops);
  }
}
