/** What a pass asks of the session manager and the transport, and in which order. */
module OutboxDiscipline {
  import opened Wrappers
  import opened OutboxModel
  import opened OutboxQueue
  import opened OutboxOrder
  import opened OutboxPass
  import opened OutboxConservation

  // ---- the vocabulary of a trace ----

  predicate Failed(c: Call) {
    c.Post? && !c.postAnswer.Accepted?
  }

  /** The transport said the channel will never carry anything again. */
  predicate Killed(c: Call) {
    c.Post? && (c.postAnswer.RetiredError? || c.postAnswer.UnknownChannelError?)
  }

  predicate Delivered(c: Call) {
    c.Post? && c.postAnswer.Accepted?
  }

  /** The attempt counts against the entry, which stays queued. */
  predicate Retries(c: Call) {
    (c.Seal? && !c.sealAnswer.Sealed?) || (c.Post? && c.postAnswer.BackendError?)
  }

  predicate InRange(trace: seq<Call>, n: nat) {
    forall i :: 0 <= i < |trace| ==> trace[i].slot < n
  }

  /** Calls follow the sending order; each entry is sealed at most once. */
  predicate FollowsOrder(trace: seq<Call>) {
    forall i, j :: 0 <= i < j < |trace| ==>
      trace[i].slot <= trace[j].slot && (trace[j].Seal? ==> trace[i].slot < trace[j].slot)
  }

  predicate CallFits(call: Call, e: Entry) {
    match call
    case Seal(_, id, peer, plaintext, _) => id == e.id && peer == e.peer && plaintext == e.plaintext
    case Post(_, id, channel, outbound, _) =>
      id == e.id && channel == e.channel && outbound == Outbound(outbound.ciphertext, e.highPriority, e.ttl)
  }

  /** Every call is made for the entry at its place, and only frames sealed for it just before are posted. */
  predicate CallsFit(live: seq<Entry>, order: seq<nat>, trace: seq<Call>)
    requires Indices(live, order) && InRange(trace, |order|)
  {
    (forall i :: 0 <= i < |trace| ==> CallFits(trace[i], live[order[trace[i].slot]])) &&
    (forall i :: 0 <= i < |trace| && trace[i].Post? ==>
       0 < i && trace[i - 1].Seal? && trace[i - 1].slot == trace[i].slot
       && trace[i - 1].sealAnswer == Sealed(trace[i].outbound.ciphertext))
  }

  /** After a failed send nothing more is sealed or sent on that channel. */
  predicate SilentAfterFailure(live: seq<Entry>, order: seq<nat>, trace: seq<Call>)
    requires Indices(live, order) && InRange(trace, |order|)
  {
    forall i, j :: 0 <= i < j < |trace| && Failed(trace[i]) ==>
      live[order[trace[j].slot]].channel != trace[i].channel
  }

  predicate TraceOk(live: seq<Entry>, order: seq<nat>, n: nat, trace: seq<Call>)
    requires Indices(live, order) && n <= |order|
  {
    && InRange(trace, n)
    && FollowsOrder(trace)
    && CallsFit(live, order, trace)
    && SilentAfterFailure(live, order, trace)
  }

  // ---- adding one call ----

  lemma OrderAppend(trace: seq<Call>, n: nat, c: Call)
    requires FollowsOrder(trace) && c.slot == n
    requires if c.Seal? then InRange(trace, n) else InRange(trace, n + 1)
    ensures FollowsOrder(trace + [c]) && InRange(trace + [c], n + 1)
  {
  }

  predicate FollowsSeal(trace: seq<Call>, c: Call) {
    c.Post? ==>
      trace != [] && trace[|trace| - 1].Seal? && trace[|trace| - 1].slot == c.slot
      && trace[|trace| - 1].sealAnswer == Sealed(c.outbound.ciphertext)
  }

  lemma FitAppend(live: seq<Entry>, order: seq<nat>, trace: seq<Call>, c: Call)
    requires Indices(live, order) && InRange(trace, |order|) && CallsFit(live, order, trace)
    requires c.slot < |order| && CallFits(c, live[order[c.slot]])
    requires FollowsSeal(trace, c)
    ensures CallsFit(live, order, trace + [c])
  {
    var t := trace + [c];
    forall i | 0 <= i < |t| && t[i].Post?
      ensures 0 < i && t[i - 1].Seal? && t[i - 1].slot == t[i].slot
      ensures t[i - 1].sealAnswer == Sealed(t[i].outbound.ciphertext)
    {
      if i == |trace| {
        assert t[i] == c && t[i - 1] == trace[|trace| - 1];
      } else {
        assert t[i] == trace[i] && 0 < i && t[i - 1] == trace[i - 1];
      }
    }
  }

  lemma SilentAppend(live: seq<Entry>, order: seq<nat>, trace: seq<Call>, c: Call)
    requires Indices(live, order) && InRange(trace, |order|) && SilentAfterFailure(live, order, trace)
    requires c.slot < |order|
    requires forall i :: 0 <= i < |trace| && Failed(trace[i]) ==> live[order[c.slot]].channel != trace[i].channel
    ensures SilentAfterFailure(live, order, trace + [c])
  {
  }

  lemma AppendOk(live: seq<Entry>, order: seq<nat>, n: nat, trace: seq<Call>, c: Call)
    requires Indices(live, order) && n < |order| && c.slot == n && CallFits(c, live[order[n]])
    requires TraceOk(live, order, if c.Seal? then n else n + 1, trace)
    requires FollowsSeal(trace, c)
    requires forall i :: 0 <= i < |trace| && Failed(trace[i]) ==> live[order[n]].channel != trace[i].channel
    ensures TraceOk(live, order, n + 1, trace + [c])
  {
    OrderAppend(trace, n, c);
    FitAppend(live, order, trace, c);
    SilentAppend(live, order, trace, c);
  }

  // ---- the table of failed channels tells the truth ----

  /** A channel is in the table exactly when a send on it failed, and dead exactly when it was killed. */
  ghost predicate TableTrue(p: Pass) {
    && (forall i :: 0 <= i < |p.trace| && Failed(p.trace[i]) ==>
          p.trace[i].channel in p.failed && (Killed(p.trace[i]) <==> Dead(p, p.trace[i].channel)))
    && (forall c :: c in p.failed ==> FailedOn(p.trace, c))
  }

  ghost predicate FailedOn(trace: seq<Call>, channel: ChannelId) {
    exists i :: 0 <= i < |trace| && Failed(trace[i]) && trace[i].channel == channel
  }

  lemma FailedOnAppend(trace: seq<Call>, c: Call, channel: ChannelId)
    requires FailedOn(trace, channel)
    ensures FailedOn(trace + [c], channel)
  {
    var i :| 0 <= i < |trace| && Failed(trace[i]) && trace[i].channel == channel;
    assert (trace + [c])[i] == trace[i];
  }

  /** A call that did not fail leaves the table true. */
  lemma TableAppend(p: Pass, c: Call)
    requires TableTrue(p) && !Failed(c)
    ensures TableTrue(Note(p, c))
  {
    forall ch | ch in p.failed ensures FailedOn(p.trace + [c], ch) {
      FailedOnAppend(p.trace, c, ch);
    }
  }

  /** A failed send enters its channel, as dead or as merely unreachable. */
  lemma TableFails(p: Pass, c: Call, failed: map<ChannelId, DeferReason>)
    requires TableTrue(p) && Failed(c) && c.channel !in p.failed
    requires c.channel in failed && failed == p.failed[c.channel := failed[c.channel]]
    requires Killed(c) <==> failed[c.channel] == NoSession
    ensures TableTrue(Note(p, c).(failed := failed))
  {
    var t := p.trace + [c];
    assert t[|p.trace|] == c;
    forall ch | ch in failed ensures FailedOn(t, ch) {
      if ch != c.channel {
        FailedOnAppend(p.trace, c, ch);
      }
    }
  }

  // ---- one turn ----

  ghost predicate Disciplined(live: seq<Entry>, order: seq<nat>, n: nat, p: Pass)
    requires Indices(live, order) && n <= |order|
  {
    SameQueue(live, p.entries) && TraceOk(live, order, n, p.trace) && TableTrue(p)
  }

  lemma TraceOkWeakens(live: seq<Entry>, order: seq<nat>, n: nat, trace: seq<Call>)
    requires Indices(live, order) && n < |order| && TraceOk(live, order, n, trace)
    ensures TraceOk(live, order, n + 1, trace)
  {
  }

  lemma SealDisciplined(live: seq<Entry>, order: seq<nat>, n: nat, p: Pass, answer: SealAnswer)
    requires Indices(live, order) && n < |order| && Disciplined(live, order, n, p)
    requires live[order[n]].channel !in p.failed
    ensures var e := live[order[n]]; Disciplined(live, order, n + 1, Note(p, Seal(n, e.id, e.peer, e.plaintext, answer)))
  {
    var c := Seal(n, live[order[n]].id, live[order[n]].peer, live[order[n]].plaintext, answer);
    AppendOk(live, order, n, p.trace, c);
    TableAppend(p, c);
  }

  lemma PostDisciplined(live: seq<Entry>, order: seq<nat>, n: nat, p: Pass, c: Call, now: nat)
    requires Indices(live, order) && n < |order| && Disciplined(live, order, n + 1, p)
    requires live[order[n]].channel !in p.failed
    requires c.Post? && c.slot == n && CallFits(c, live[order[n]]) && FollowsSeal(p.trace, c)
    ensures Disciplined(live, order, n + 1, Posted(Note(p, c), order[n], c.postAnswer, now))
  {
    var x := order[n];
    assert SameMessage(p.entries[x], live[x]);
    QuietSoFar(p, live[x].channel);
    AppendOk(live, order, n, p.trace, c);
    if Failed(c) {
      PostFails(p, c, x, now);
    } else {
      TableAppend(p, c);
    }
  }

  lemma QuietSoFar(p: Pass, channel: ChannelId)
    requires TableTrue(p) && channel !in p.failed
    ensures forall i :: 0 <= i < |p.trace| && Failed(p.trace[i]) ==> p.trace[i].channel != channel
  {
  }

  lemma PostFails(p: Pass, c: Call, x: nat, now: nat)
    requires TableTrue(p) && Failed(c) && c.channel !in p.failed
    requires x < |p.entries| && p.entries[x].channel == c.channel
    ensures TableTrue(Posted(Note(p, c), x, c.postAnswer, now))
  {
    TableFails(p, c, Posted(Note(p, c), x, c.postAnswer, now).failed);
  }

  lemma TurnDisciplined(live: seq<Entry>, order: seq<nat>, n: nat, p: Pass, o: Oracle, now: nat)
    requires Indices(live, order) && n < |order| && Disciplined(live, order, n, p)
    ensures Disciplined(live, order, n + 1, Turn(p, n, order[n], o, now))
  {
    var x := order[n];
    var e := p.entries[x];
    assert SameMessage(e, live[x]);
    TraceOkWeakens(live, order, n, p.trace);
    if e.channel !in p.failed {
      var sealing := o.seal(|p.trace|, e.peer, e.plaintext);
      SealDisciplined(live, order, n, p, sealing);
      var q := Note(p, Seal(n, e.id, e.peer, e.plaintext, sealing));
      if sealing.Sealed? {
        var outbound := Outbound(sealing.frame, e.highPriority, e.ttl);
        var posting := o.post(|q.trace|, e.channel, outbound);
        PostDisciplined(live, order, n, q, Post(n, e.id, e.channel, outbound, posting), now);
      }
    }
  }

  lemma NextDisciplined(live: seq<Entry>, order: seq<nat>, n: nat, p: Pass, o: Oracle, now: nat)
    requires Indices(live, order) && n < |order| && Indices(p.entries, order)
    requires Disciplined(live, order, n, Turns(p, order[..n], o, now))
    ensures Disciplined(live, order, n + 1, Turns(p, order[..n + 1], o, now))
  {
    TurnDisciplined(live, order, n, Turns(p, order[..n], o, now), o, now);
    TurnsStep(p, order, n, o, now);
  }

  lemma {:induction false} TurnsDisciplined(live: seq<Entry>, order: seq<nat>, n: nat, p: Pass, o: Oracle, now: nat)
    requires Indices(live, order) && n <= |order| && Disciplined(live, order, 0, p) && p.trace == []
    ensures Indices(p.entries, order[..n])
    ensures Disciplined(live, order, n, Turns(p, order[..n], o, now))
  {
    if n > 0 {
      TurnsDisciplined(live, order, n - 1, p, o, now);
      NextDisciplined(live, order, n - 1, p, o, now);
    } else {
      assert Turns(p, order[..n], o, now) == p;
    }
  }

  /** The whole discipline of one pass. Every call is made for an unexpired entry that is due, taken in
      strictly increasing (urgency, age, id) order within the budget; only frames sealed just before for the
      same entry are posted; and a channel that fails once is left alone for the rest of the pass. */
  lemma SendDiscipline(box: Box, o: Oracle, now: nat, budget: nat)
    requires StrictIds(box.entries, box.nextId)
    ensures var live := Kept(ExpiredAt(now), box.entries);
            var order := SendOrder(live, now, budget);
            && Indices(live, order) && StrictlyOrdered(live, order) && |order| <= budget
            && (forall x :: x in order ==> live[x].notBefore <= now && !Hits(ExpiredAt(now), live[x]))
            && Disciplined(live, order, |order|, Sending(box, o, now, budget))
  {
    var live := Kept(ExpiredAt(now), box.entries);
    var order := SendOrder(live, now, budget);
    KeptStrict(ExpiredAt(now), box.entries, box.nextId);
    SendOrderOrdered(live, now, budget, box.nextId);
    assert order[..|order|] == order;
    TurnsDisciplined(live, order, |order|, Start(box, now), o, now);
    forall x | x in order ensures !Hits(ExpiredAt(now), live[x]) {
      assert live[x] in live;
    }
  }
}
